/** When compiled templates mean simultaneous substitution. */
module TemplateTheorems {
  import opened Results
  import opened Tokens
  import opened Templates

  /** fmt's view of a compiled template: the i-th placeholder takes the i-th operand. */
  function Positional(ps: seq<Piece>, operands: seq<string>): string {
    if ps == [] then ""
    else match ps[0]
      case Lit(c) => [c] + Positional(ps[1..], operands)
      case Hole(_) =>
        if operands == [] then "%!s(MISSING)" + Positional(ps[1..], operands)
        else operands[0] + Positional(ps[1..], operands[1..])
  }

  function Remaining<T>(operands: seq<T>, n: nat): seq<T> {
    if n <= |operands| then operands[n..] else []
  }

  /** Puts text in front of a successful result. */
  function Prefixed(text: string, r: Result<string, CallError>): Result<string, CallError> {
    match r case Ok(rest) => Ok(text + rest) case Err(e) => Err(e)
  }

  lemma SprintfOfChar(c: char, rest: string, operands: seq<string>)
    requires c != '%'
    ensures Sprintf([c] + rest, operands) == Prefixed([c], Sprintf(rest, operands))
  {
  }

  lemma SprintfOfVerb(rest: string, operands: seq<string>)
    ensures Sprintf(['%', 's'] + rest, operands) ==
            if operands == [] then Prefixed("%!s(MISSING)", Sprintf(rest, []))
            else Prefixed(operands[0], Sprintf(rest, operands[1..]))
  {
  }

  lemma PrefixedTwice(a: string, b: string, r: Result<string, CallError>)
    ensures Prefixed(a, Prefixed(b, r)) == Prefixed(a + b, r)
  {
    if r.Ok? {
      assert a + (b + r.value) == a + b + r.value;
    }
  }

  lemma {:induction false} SprintfOnTemplate(ps: seq<Piece>, suffix: string, operands: seq<string>)
    requires Lit('%') !in ps
    ensures Sprintf(Format(ps) + suffix, operands) ==
            Prefixed(Positional(ps, operands), Sprintf(suffix, Remaining(operands, |Holes(ps)|)))
  {
    var tail := Sprintf(suffix, Remaining(operands, |Holes(ps)|));
    if ps == [] {
      assert Format(ps) + suffix == suffix && Remaining(operands, 0) == operands;
      assert tail.Ok? ==> "" + tail.value == tail.value;
    } else {
      var rest := Format(ps[1..]) + suffix;
      match ps[0]
      case Lit(c) =>
        assert ps[0] == Lit(c);
        assert Format(ps) + suffix == [c] + rest;
        SprintfOfChar(c, rest, operands);
        SprintfOnTemplate(ps[1..], suffix, operands);
        PrefixedTwice([c], Positional(ps[1..], operands), tail);
      case Hole(_) =>
        assert Format(ps) + suffix == ['%', 's'] + rest;
        SprintfOfVerb(rest, operands);
        if operands == [] {
          SprintfOnTemplate(ps[1..], suffix, []);
          PrefixedTwice("%!s(MISSING)", Positional(ps[1..], []), tail);
        } else {
          SprintfOnTemplate(ps[1..], suffix, operands[1..]);
          assert Remaining(operands, |Holes(ps)|) == Remaining(operands[1..], |Holes(ps[1..])|);
          PrefixedTwice(operands[0], Positional(ps[1..], operands[1..]), tail);
        }
    }
  }

  lemma ComparisonSuffix(x: string)
    ensures Sprintf(" = %s", [x]) == Ok(" = " + x)
  {
    assert " = %s" == [' '] + (['='] + ([' '] + (['%', 's'] + "")));
    SprintfOfVerb("", [x]);
    SprintfOfChar(' ', ['%', 's'] + "", [x]);
    SprintfOfChar('=', [' '] + (['%', 's'] + ""), [x]);
    SprintfOfChar(' ', ['='] + ([' '] + (['%', 's'] + "")), [x]);
    assert [x][1..] == [] && [' '] + (['='] + ([' '] + (x + ""))) == " = " + x;
  }

  lemma HolesBelowRest(ps: seq<Piece>, n: nat)
    requires ps != [] && HolesBelow(ps, n)
    ensures HolesBelow(ps[1..], n)
    ensures ps[0].Hole? ==> Decimal(ps[0].digits) < n
  {
    var k := |Holes(ps)| - |Holes(ps[1..])|;
    assert forall i :: 0 <= i < |Holes(ps[1..])| ==> Holes(ps[1..])[i] == Holes(ps)[i + k];
    assert ps[0].Hole? ==> Holes(ps)[0] == Decimal(ps[0].digits);
  }

  lemma {:induction false} PositionalIsSubstitution(ps: seq<Piece>, operands: seq<string>, args: seq<string>)
    requires HolesBelow(ps, |args|)
    requires |Holes(ps)| <= |operands|
    requires forall i :: 0 <= i < |Holes(ps)| ==> operands[i] == args[Holes(ps)[i]]
    ensures Positional(ps, operands) == Substitute(ps, (c: char) => c, args)
  {
    if ps != [] {
      var k := |Holes(ps)| - |Holes(ps[1..])|;
      assert forall i :: 0 <= i < |Holes(ps[1..])| ==> Holes(ps[1..])[i] == Holes(ps)[i + k];
      match ps[0]
      case Lit(_) =>
        PositionalIsSubstitution(ps[1..], operands, args);
      case Hole(_) =>
        assert Holes(ps)[0] < |args|;
        PositionalIsSubstitution(ps[1..], operands[1..], args);
    }
  }

  lemma {:induction false} NoPercentInPieces(s: string)
    requires '%' !in s
    ensures Lit('%') !in Pieces(s)
    decreases |s|
  {
    if s == "" {
    } else if s[0] == '$' && DigitRun(s[1..]) > 0 {
      NoPercentInPieces(s[1 + DigitRun(s[1..])..]);
    } else {
      NoPercentInPieces(s[1..]);
    }
  }

  /** A well-formed template is applied by simultaneous substitution. */
  lemma WellFormedSubstitutes(t: Template, args: seq<string>)
    requires SoundTemplate(t)
    requires t.argsCount <= |args| <= t.argsCount + 1
    ensures MapsBySubstitution(t, args)
  {
    var ps, n := Pieces(t.mapping), t.argsCount;
    NoPercentInPieces(t.mapping);
    var operands := Rearrange(Holes(ps), args);
    PositionalIsSubstitution(ps, operands, args[..n]);
    if |args| > n {
      SprintfOnTemplate(ps, " = %s", operands);
      assert Remaining(operands, n) == [args[n]];
      ComparisonSuffix(args[n]);
    } else {
      SprintfOnTemplate(ps, "", operands);
      assert Format(ps) + "" == Format(ps);
      assert Remaining(operands, n) == [];
    }
  }

  // ---------------------------------------------------------------- templates that misprint

  /** How often a character occurs. */
  function Count(s: string, c: char): nat {
    if s == "" then 0 else (if s[0] == c then 1 else 0) + Count(s[1..], c)
  }

  lemma {:induction false} CountAppend(a: string, b: string, c: char)
    ensures Count(a + b, c) == Count(a, c) + Count(b, c)
  {
    if a == "" {
      assert a + b == b;
    } else {
      assert (a + b)[1..] == a[1..] + b;
      CountAppend(a[1..], b, c);
    }
  }

  lemma CountCons(first: char, rest: string, c: char)
    ensures Count([first] + rest, c) == (if first == c then 1 else 0) + Count(rest, c)
  {
    assert ([first] + rest)[1..] == rest;
  }

  /** Operands that are told apart from everything that fmt writes. */
  function Sample(n: nat): (r: seq<string>)
    ensures |r| == n && forall i :: 0 <= i < n ==> r[i] == "x"
  {
    seq(n, i => "x")
  }

  /** What shows that fmt has complained, and what it has read. */
  predicate Telling(c: char) {
    c == '!' || c == '%' || c == 's'
  }

  lemma {:induction false} FlagsTellNothing(s: string, c: char)
    requires Telling(c)
    ensures Count(s, c) == Count(s[FlagRun(s)..], c)
  {
    if FlagRun(s) > 0 {
      FlagsTellNothing(s[1..], c);
      assert s[1..][FlagRun(s[1..])..] == s[FlagRun(s)..];
    }
  }

  /** A directive: a percent sign, flags and a verb. */
  lemma DirectiveTells(format: string, c: char)
    requires Telling(c) && format != "" && format[0] == '%'
    ensures var n := 1 + FlagRun(format[1..]);
            Count(format, c) ==
            (if c == '%' then 1 else 0)
            + (if n == |format| then 0 else (if format[n] == c then 1 else 0) + Count(format[n + 1..], c))
  {
    var n := 1 + FlagRun(format[1..]);
    FlagsTellNothing(format[1..], c);
    assert format[1..][n - 1..] == format[n..];
    if n < |format| {
      assert format[n..][1..] == format[n + 1..];
    }
  }

  /** fmt's complaints all have an exclamation mark. */
  lemma MissingTells(rest: string)
    ensures Count("%!s(MISSING)" + rest, '!') > Count(rest, '!')
  {
    hide Count;
    ComplaintTells("s(MISSING)" + rest);
    assert "%!s(MISSING)" + rest == "%!" + ("s(MISSING)" + rest);
    CountAppend("s(MISSING)", rest, '!');
  }

  lemma NoVerbTells(rest: string)
    ensures Count("%!(NOVERB)" + rest, '!') > 0
  {
    hide Count;
    ComplaintTells("(NOVERB)" + rest);
    assert "%!(NOVERB)" + rest == "%!" + ("(NOVERB)" + rest);
  }

  lemma ExtraTells(args: seq<string>)
    requires args != []
    ensures Count(ExtraOperands(args), '!') > 0
  {
    hide Count, Join;
    var operands := Join(seq(|args|, i requires 0 <= i < |args| => "string=" + args[i]), ", ");
    ComplaintTells("(EXTRA " + operands + ")");
    assert ExtraOperands(args) == "%!" + ("(EXTRA " + operands + ")");
  }

  lemma ComplaintTells(rest: string)
    ensures Count("%!" + rest, '!') == 1 + Count(rest, '!')
  {
    assert "%!" + rest == ['%'] + (['!'] + rest);
    CountCons('%', ['!'] + rest, '!');
    CountCons('!', rest, '!');
  }

  /** Without a complaint fmt has used every operand once: every directive has turned two percent signs
      into one, or a percent sign and an `s` into an operand. */
  ghost predicate Accounts(format: string, m: nat, out: string) {
    && Count(out, '!') >= Count(format, '!')
    && (Count(out, '!') == Count(format, '!') ==>
          && Count(format, '%') == 2 * Count(out, '%') + m
          && Count(format, 's') == Count(out, 's') + m)
  }

  lemma {:induction false} SprintfAccounts(format: string, m: nat)
    ensures Sprintf(format, Sample(m)).Ok? ==> Accounts(format, m, Sprintf(format, Sample(m)).value)
    decreases |format|
  {
    var r := Sprintf(format, Sample(m));
    if format == "" {
      if m > 0 {
        ExtraTells(Sample(m));
      }
    } else if r.Ok? && format[0] != '%' {
      SprintfAccounts(format[1..], m);
      CharAccounts(format, m, Sprintf(format[1..], Sample(m)).value);
    } else if r.Ok? {
      DirectiveAccounts(format, m);
    }
  }

  lemma CharAccounts(format: string, m: nat, out: string)
    requires format != "" && format[0] != '%' && Accounts(format[1..], m, out)
    ensures Accounts(format, m, [format[0]] + out)
  {
    CountCons(format[0], out, '!');
    CountCons(format[0], out, '%');
    CountCons(format[0], out, 's');
  }

  lemma {:induction false} DirectiveAccounts(format: string, m: nat)
    requires format != "" && format[0] == '%' && Sprintf(format, Sample(m)).Ok?
    ensures Accounts(format, m, Sprintf(format, Sample(m)).value)
    decreases |format|, 0
  {
    hide ExtraOperands;
    var n := 1 + FlagRun(format[1..]);
    var out := Sprintf(format, Sample(m)).value;
    DirectiveTells(format, '!');
    DirectiveTells(format, '%');
    DirectiveTells(format, 's');
    if n == |format| {
      NoVerbTells(ExtraOperands(Sample(m)));
    } else {
      var rest := format[n + 1..];
      if format[n] == '%' {
        SprintfAccounts(rest, m);
        assert "%" + Sprintf(rest, Sample(m)).value == out;
        OneCharMore('%', Sprintf(rest, Sample(m)).value);
      } else if m == 0 {
        assert Sample(0) == [];
        SprintfAccounts(rest, 0);
        MissingTells(Sprintf(rest, []).value);
      } else {
        assert Sample(m)[1..] == Sample(m - 1);
        SprintfAccounts(rest, m - 1);
        assert "x" + Sprintf(rest, Sample(m - 1)).value == out;
        OneCharMore('x', Sprintf(rest, Sample(m - 1)).value);
      }
    }
  }

  lemma OneCharMore(c: char, out: string)
    ensures Count([c] + out, '!') == (if c == '!' then 1 else 0) + Count(out, '!')
    ensures Count([c] + out, '%') == (if c == '%' then 1 else 0) + Count(out, '%')
    ensures Count([c] + out, 's') == (if c == 's' then 1 else 0) + Count(out, 's')
  {
    CountCons(c, out, '!');
    CountCons(c, out, '%');
    CountCons(c, out, 's');
  }

  /** Every placeholder adds a percent sign and an `s` to the format, none of which is printed. */
  lemma {:induction false} FormatTells(ps: seq<Piece>, n: nat, c: char)
    requires HolesBelow(ps, n) && Telling(c)
    ensures Count(Format(ps), c) ==
            Count(Substitute(ps, (c: char) => c, Sample(n)), c) + if c == '!' then 0 else |Holes(ps)|
  {
    if ps != [] {
      HolesBelowRest(ps, n);
      FormatTells(ps[1..], n, c);
      var printed := Substitute(ps[1..], (c: char) => c, Sample(n));
      match ps[0]
      case Lit(l) =>
        CountCons(l, Format(ps[1..]), c);
        CountCons(l, printed, c);
      case Hole(d) =>
        assert "%s" + Format(ps[1..]) == ['%'] + (['s'] + Format(ps[1..]));
        CountCons('%', ['s'] + Format(ps[1..]), c);
        CountCons('s', Format(ps[1..]), c);
        CountCons('x', printed, c);
    }
  }

  lemma {:induction false} PercentIsPrinted(ps: seq<Piece>, n: nat)
    requires HolesBelow(ps, n) && Lit('%') in ps
    ensures Count(Substitute(ps, (c: char) => c, Sample(n)), '%') > 0
  {
    HolesBelowRest(ps, n);
    var printed := Substitute(ps[1..], (c: char) => c, Sample(n));
    if ps[0] != Lit('%') {
      PercentIsPrinted(ps[1..], n);
    }
    match ps[0]
    case Lit(l) => CountCons(l, printed, '%');
    case Hole(d) => CountCons('x', printed, '%');
  }

  lemma {:induction false} DigitsArePrefix(s: string)
    ensures forall i :: 0 <= i < DigitRun(s) ==> s[i] != '%'
  {
    if DigitRun(s) > 0 {
      DigitsArePrefix(s[1..]);
      assert forall i :: 0 < i < DigitRun(s) ==> s[i] == s[1..][i - 1];
    }
  }

  lemma {:induction false} PercentIsAPiece(s: string)
    requires '%' in s
    ensures Lit('%') in Pieces(s)
    decreases |s|
  {
    if s[0] == '$' && DigitRun(s[1..]) > 0 {
      var n := 1 + DigitRun(s[1..]);
      DigitsArePrefix(s[1..]);
      var i :| 0 <= i < |s| && s[i] == '%';
      assert i >= n by {
        assert i > 0 ==> s[i] == s[1..][i - 1];
      }
      assert s[n..][i - n] == '%';
      PercentIsAPiece(s[n..]);
    } else if s[0] != '%' {
      assert '%' in s[1..];
      PercentIsAPiece(s[1..]);
    }
  }

  /** A template with a literal '%', or whose placeholders do not match its argument count, misprints some
      call: fmt takes the percent sign for the start of a directive, or reports missing or extra operands
      inside the generated text. */
  lemma IllFormedMisprints(t: Template)
    requires !SoundTemplate(t)
    ensures !MapsBySubstitution(t, Sample(t.argsCount))
  {
    var ps, n := Pieces(t.mapping), t.argsCount;
    var args := Sample(n);
    if MapsBySubstitution(t, args) {
      assert args[..n] == args && Rearrange(Holes(ps), args) == args;
      var printed := Substitute(ps, (c: char) => c, args);
      assert printed + "" == printed;
      SprintfAccounts(Format(ps), n);
      FormatTells(ps, n, '!');
      FormatTells(ps, n, '%');
      FormatTells(ps, n, 's');
      assert |Holes(ps)| == n && Count(printed, '%') == 0;
      if '%' in t.mapping {
        PercentIsAPiece(t.mapping);
        PercentIsPrinted(ps, n);
      }
    }
  }

  /** Init followed by Map is simultaneous substitution on all operand lists exactly when the template has
      no literal '%', one placeholder per declared argument, and every placeholder number below that
      count. */
  lemma SubstitutionExactlyWhenSound(t: Template)
    ensures SoundTemplate(t) <==>
            forall args: seq<string> :: t.argsCount <= |args| <= t.argsCount + 1 ==> MapsBySubstitution(t, args)
  {
    if SoundTemplate(t) {
      forall args: seq<string> | t.argsCount <= |args| <= t.argsCount + 1
        ensures MapsBySubstitution(t, args)
      {
        WellFormedSubstitutes(t, args);
      }
    } else {
      IllFormedMisprints(t);
    }
  }

  lemma PiecesOfLiteral(c: char, rest: string)
    requires c != '$'
    ensures Pieces([c] + rest) == [Lit(c)] + Pieces(rest)
  {
  }

  lemma PiecesOfHole(d: char, rest: string)
    requires IsDigit(d) && (rest == "" || !IsDigit(rest[0]))
    ensures Pieces(['$', d] + rest) == [Hole([d])] + Pieces(rest)
  {
    var s := ['$', d] + rest;
    assert s[1..] == [d] + rest && s[1..][1..] == rest && DigitRun(s[1..]) == 1 && s[1..2] == [d] && s[2..] == rest;
  }

  /** fmt reads "% %" as an escaped percent sign with an ignored flag. */
  lemma SprintfOfFlaggedPercent(rest: string, operands: seq<string>)
    ensures Sprintf(['%', ' ', '%'] + rest, operands) == Prefixed("%", Sprintf(rest, operands))
  {
    var f := ['%', ' ', '%'] + rest;
    assert f[1..][0] == ' ' && f[1..][1..][0] == '%' && FlagRun(f[1..][1..]) == 0 && FlagRun(f[1..]) == 1
        && f[3..] == rest;
  }

  lemma InfixTail(op: char, b: char)
    requires IsDigit(b) && op != '$'
    ensures Pieces([' ', op, ' ', '$', b]) == [Lit(' '), Lit(op), Lit(' '), Hole([b])]
  {
    assert Pieces("") == [];
    hide Pieces;
    PiecesOfHole(b, "");
    assert ['$', b] + "" == ['$', b] && [Hole([b])] + [] == [Hole([b])];
    PiecesOfLiteral(' ', ['$', b]);
    assert [' '] + ['$', b] == [' ', '$', b] && [Lit(' ')] + [Hole([b])] == [Lit(' '), Hole([b])];
    PiecesOfLiteral(op, [' ', '$', b]);
    assert [op] + [' ', '$', b] == [op, ' ', '$', b];
    PiecesOfLiteral(' ', [op, ' ', '$', b]);
    assert [' '] + [op, ' ', '$', b] == [' ', op, ' ', '$', b];
  }

  /** A binary infix operator with one-digit placeholders. */
  lemma InfixPieces(a: char, op: char, b: char)
    requires IsDigit(a) && IsDigit(b) && op != '$'
    ensures Pieces(['$', a, ' ', op, ' ', '$', b]) == [Hole([a]), Lit(' '), Lit(op), Lit(' '), Hole([b])]
  {
    hide Pieces;
    var rest := [' ', op, ' ', '$', b];
    InfixTail(op, b);
    PiecesOfHole(a, rest);
    assert ['$', a, ' ', op, ' ', '$', b] == ['$', a] + rest;
  }

  lemma RemainderFormat(ps: seq<Piece>)
    requires ps == [Hole(['0']), Lit(' '), Lit('%'), Lit(' '), Hole(['1'])]
    ensures Holes(ps) == [0, 1]
    ensures Format(ps) == ['%', 's'] + ([' '] + (['%', ' ', '%'] + (['s'] + "")))
  {
    var p4 := [Hole(['1'])];
    var p3 := [Lit(' ')] + p4;
    var p2 := [Lit('%')] + p3;
    var p1 := [Lit(' ')] + p2;
    assert p4[1..] == [] && p3[1..] == p4 && p2[1..] == p3 && p1[1..] == p2 && ps[1..] == p1;
    assert Decimal(['0'][..0]) == 0 && Decimal(['1'][..0]) == 0;
    assert Holes(p4) == [1] && Holes(p3) == [1] && Holes(p2) == [1] && Holes(p1) == [1];
    assert Format(p4) == "%s" && Format(p3) == " %s" && Format(p2) == "% %s" && Format(p1) == " % %s";
  }

  lemma RemainderSubstitutionLength(ps: seq<Piece>, a: string, b: string)
    requires ps == [Hole(['0']), Lit(' '), Lit('%'), Lit(' '), Hole(['1'])]
    ensures |Positional(ps, [a, b])| == |a| + |b| + 3
  {
    var p4 := [Hole(['1'])];
    var p3 := [Lit(' ')] + p4;
    var p2 := [Lit('%')] + p3;
    var p1 := [Lit(' ')] + p2;
    assert p4[1..] == [] && p3[1..] == p4 && p2[1..] == p3 && p1[1..] == p2 && ps[1..] == p1;
    assert [a, b][1..] == [b];
    assert |Positional(p4, [b])| == |b|;
    assert |Positional(p2, [b])| == |b| + 2;
  }

  lemma SprintfOfRemainder(a: string, b: string)
    ensures Sprintf(['%', 's'] + ([' '] + (['%', ' ', '%'] + (['s'] + ""))), [a, b]) ==
            Ok(a + ([' '] + ("%" + (['s'] + ExtraOperands([b])))))
  {
    SprintfOfChar('s', "", [b]);
    SprintfOfFlaggedPercent(['s'] + "", [b]);
    SprintfOfChar(' ', ['%', ' ', '%'] + (['s'] + ""), [b]);
    SprintfOfVerb([' '] + (['%', ' ', '%'] + (['s'] + "")), [a, b]);
    assert [a, b][1..] == [b];
  }

  lemma RemainderMisprints(t: Template, a: string, b: string)
    requires t.argsCount == 2
    requires Pieces(t.mapping) == [Hole(['0']), Lit(' '), Lit('%'), Lit(' '), Hole(['1'])]
    ensures WellFormed(t) && !MapsBySubstitution(t, [a, b])
    ensures MapTemplate(t, [a, b]) == Ok(a + ([' '] + ("%" + (['s'] + ExtraOperands([b])))))
  {
    var ps := Pieces(t.mapping);
    RemainderFormat(ps);
    var operands := Rearrange(Holes(ps), [a, b]);
    assert operands == [a, b] && [a, b][..2] == [a, b];
    SprintfOfRemainder(a, b);
    PositionalIsSubstitution(ps, operands, [a, b]);
    RemainderSubstitutionLength(ps, a, b);
    assert |ExtraOperands([b])| > |b| + 1;
  }

  /** The shipped `rem` operand is an instance: a literal '%' breaks a template whose placeholders are in
      order. fmt prints its second operand, whatever it is, as a complaint. */
  lemma RemainderTemplateMisprints(a: string, b: string)
    ensures WellFormed(Template(2, "$0 % $1")) && !SoundTemplate(Template(2, "$0 % $1"))
    ensures !MapsBySubstitution(Template(2, "$0 % $1"), [a, b])
    ensures MapTemplate(Template(2, "$0 % $1"), [a, b]) ==
            Ok(a + ([' '] + ("%" + (['s'] + ExtraOperands([b])))))
  {
    InfixPieces('0', '%', '1');
    assert "$0 % $1" == ['$', '0', ' ', '%', ' ', '$', '1'] && "$0 % $1"[3] == '%';
    RemainderMisprints(Template(2, "$0 % $1"), a, b);
  }

  // ---------------------------------------------------------------- templates over tokens

  function AsToken<I>(c: char): Token<I> {
    Ch(c)
  }

  predicate AcceptsCount(t: Template, n: nat) {
    t.argsCount <= n <= t.argsCount + 1
  }

  /** A template rejects any other number of operands. */
  lemma OnlyAcceptedCounts(t: Template, args: seq<string>)
    ensures MapTemplate(t, args).Ok? ==> AcceptsCount(t, |args|)
  {
  }

  /** The text of a call, with the gaps of its operands kept as gaps. */
  function Compose<I>(t: Template, args: seq<seq<Token<I>>>): seq<Token<I>>
    requires WellFormed(t) && AcceptsCount(t, |args|)
  {
    Substitute(Pieces(t.mapping), AsToken<I>, args[..t.argsCount])
    + (if |args| > t.argsCount then Chars(" = ") + args[t.argsCount] else [])
  }

  lemma {:induction false} SubstituteNatural<I>(ps: seq<Piece>, fill: I -> string, args: seq<seq<Token<I>>>)
    requires HolesBelow(ps, |args|)
    ensures Fill(fill, Substitute(ps, AsToken<I>, args)) == Substitute(ps, (c: char) => c, FillEach(fill, args))
  {
    if ps != [] {
      HolesBelowRest(ps, |args|);
      SubstituteNatural(ps[1..], fill, args);
      match ps[0]
      case Lit(c) =>
        FillAppend(fill, [AsToken<I>(c)], Substitute(ps[1..], AsToken<I>, args));
        assert Fill(fill, [AsToken<I>(c)]) == [c];
      case Hole(d) =>
        assert Decimal(d) == Holes(ps)[0];
        FillAppend(fill, args[Decimal(d)], Substitute(ps[1..], AsToken<I>, args));
    }
  }

  /** Applying a well-formed template commutes with filling the gaps of its operands. */
  lemma ComposeNatural<I>(t: Template, fill: I -> string, args: seq<seq<Token<I>>>)
    requires SoundTemplate(t) && AcceptsCount(t, |args|)
    ensures MapTemplate(t, FillEach(fill, args)) == Ok(Fill(fill, Compose(t, args)))
  {
    var ps, n := Pieces(t.mapping), t.argsCount;
    WellFormedSubstitutes(t, FillEach(fill, args));
    SubstituteNatural(ps, fill, args[..n]);
    assert FillEach(fill, args[..n]) == FillEach(fill, args)[..n];
    var body := Substitute(ps, AsToken<I>, args[..n]);
    if |args| > n {
      FillAppend(fill, body, Chars(" = ") + args[n]);
      FillAppend(fill, Chars(" = "), args[n]);
      FillChars<I>(fill, " = ");
    } else {
      assert body + [] == body && FillEach(fill, args)[..n] == FillEach(fill, args);
      var text := Substitute(ps, (c: char) => c, FillEach(fill, args));
      assert text + "" == text;
    }
  }
}
