/** What can be told from the text of a clause: infix templates print nested calls alike, while comparisons of
    columns and parameters keep their parts apart. */
module SqlTexts {
  import opened Results
  import opened Tokens
  import opened Meaning
  import opened Templates
  import opened TemplateTheorems
  import opened TemplateReading
  import opened SqlTranslator
  import opened SqlStructure
  import opened SqlExecutor

  // ---------------------------------------------------------------- infix templates

  /** A symbol between two operands, as in "$0 <= $1". */
  predicate Symbol(s: string) {
    '$' !in s && '%' !in s && ' ' !in s
  }

  function Infix(s: string): Template {
    Template(2, "$0 " + s + " $1")
  }

  /** The shipped operators are of this kind. */
  lemma ShippedInfixTemplates()
    ensures Infix("-") == Template(2, "$0 - $1") && Symbol("-")
    ensures Infix("+") == Template(2, "$0 + $1") && Symbol("+")
    ensures Infix("<=") == Template(2, "$0 <= $1") && Symbol("<=")
  {
  }

  lemma {:induction false} LiteralsSubstitute<I>(s: string, rest: seq<Piece>, args: seq<seq<Token<I>>>)
    requires HolesBelow(rest, |args|)
    ensures HolesBelow(Literals(s) + rest, |args|)
    ensures Substitute(Literals(s) + rest, AsToken<I>, args) == Chars(s) + Substitute(rest, AsToken<I>, args)
  {
    HolesOfLiterals(s, rest);
    hide HolesBelow, Substitute;
    if s == "" {
      var same := Substitute(rest, AsToken<I>, args);
      assert Literals(s) + rest == rest && Chars<I>(s) + same == same;
    } else {
      var tail := Literals(s[1..]) + rest;
      LiteralsSubstitute(s[1..], rest, args);
      LiteralSubstituted(s[0], tail, AsToken<I>, args);
      assert Literals(s) + rest == [Lit(s[0])] + tail;
      CharsOf<I>(s, Substitute(rest, AsToken<I>, args));
    }
  }

  lemma CharsOf<I>(s: string, rest: seq<Token<I>>)
    requires s != ""
    ensures [AsToken<I>(s[0])] + (Chars<I>(s[1..]) + rest) == Chars<I>(s) + rest
  {
    assert Chars<I>(s) == [AsToken<I>(s[0])] + Chars<I>(s[1..]);
  }

  lemma InfixMapping(s: string)
    ensures Infix(s).mapping == ['$', '0'] + ((" " + s + " ") + ['$', '1'])
  {
    assert "$0 " == ['$', '0'] + " " && " $1" == " " + ['$', '1'];
  }

  lemma InfixHasPieces(s: string)
    requires Symbol(s)
    ensures Pieces(Infix(s).mapping) == [Hole(['0'])] + (Literals(" " + s + " ") + [Hole(['1'])])
  {
    assert Pieces("") == [];
    hide Pieces;
    var middle := " " + s + " ";
    var last := ['$', '1'] + "";
    PiecesOfHole('1', "");
    assert Pieces(last) == [Hole(['1'])];
    PiecesOfLiterals(middle, last);
    PiecesOfHole('0', middle + last);
    InfixMapping(s);
    assert last == ['$', '1'] && [Hole(['1'])] + [] == [Hole(['1'])];
    hide Infix;
    assert Literals(middle) + ([Hole(['1'])] + []) == Literals(middle) + [Hole(['1'])];
  }

  lemma InfixIsSound(s: string)
    requires Symbol(s)
    ensures SoundTemplate(Infix(s)) && Holes(Pieces(Infix(s).mapping)) == [0, 1]
  {
    InfixHasPieces(s);
    hide Pieces;
    var last := [Hole(['1'])];
    var tail := Literals(" " + s + " ") + last;
    HolesOfLiterals(" " + s + " ", last);
    assert last[1..] == [] && ([Hole(['0'])] + tail)[1..] == tail;
    assert Decimal(['0'][..0]) == 0 && Decimal(['1'][..0]) == 0;
    assert Holes(last) == [1] && Holes([Hole(['0'])] + tail) == [0] + Holes(tail);
  }

  lemma InfixComposes<I>(s: string, x: seq<Token<I>>, y: seq<Token<I>>)
    requires Symbol(s)
    ensures SoundTemplate(Infix(s)) && Compose(Infix(s), [x, y]) == x + (Chars(" " + s + " ") + y)
  {
    InfixIsSound(s);
    InfixHasPieces(s);
    hide Pieces, Symbol;
    var args := [x, y];
    var last := [Hole(['1'])];
    var tail := Literals(" " + s + " ") + last;
    HolesOfLiterals(" " + s + " ", last);
    assert last[1..] == [] && ([Hole(['0'])] + tail)[1..] == tail;
    assert Decimal(['0'][..0]) == 0 && Decimal(['1'][..0]) == 0;
    assert Holes(last) == [1];
    LiteralsSubstitute(" " + s + " ", last, args);
    assert Substitute(last, AsToken<I>, args) == y + [] == y;
    assert args[..2] == args;
    var body := Substitute([Hole(['0'])] + tail, AsToken<I>, args);
    assert body == x + Substitute(tail, AsToken<I>, args) && body + [] == body;
  }

  /** What a handler writes for an infix template: its operands around the symbol and, for one operand too many, a
      comparison of the call with it. */
  lemma InfixIsWritten(s: string, a: string, b: string, c: string)
    requires Symbol(s)
    ensures MapTemplate(Infix(s), [a, b]) == Ok(a + (" " + s + " " + b))
    ensures MapTemplate(Infix(s), [a, b, c]) == Ok(a + (" " + s + " " + b) + (" = " + c))
  {
    InfixIsSound(s);
    InfixSubstitutes(s, [a, b], (ch: char) => ch);
    WellFormedSubstitutes(Infix(s), [a, b]);
    WellFormedSubstitutes(Infix(s), [a, b, c]);
    hide Pieces, Infix, Symbol, MapTemplate;
    assert [a, b][..2] == [a, b] && [a, b, c][..2] == [a, b];
    var text := a + (" " + s + " " + b);
    assert text + "" == text;
  }

  lemma InfixSubstitutes(s: string, args: seq<string>, lit: char -> char)
    requires Symbol(s) && |args| == 2 && forall c :: lit(c) == c
    ensures HolesBelow(Pieces(Infix(s).mapping), 2)
    ensures Substitute(Pieces(Infix(s).mapping), lit, args) == args[0] + (" " + s + " " + args[1])
  {
    InfixHasPieces(s);
    assert Decimal(['0']) == 0 && Decimal(['1']) == 1 by {
      assert ['0'][..0] == "" && ['1'][..0] == "";
    }
    assert HolesBelow([], 2) && Substitute([], lit, args) == [];
    hide Pieces, Symbol, Decimal, Infix, Literals, HolesBelow, Substitute;
    HoleSubstituted(['1'], [], lit, args);
    assert [Hole(['1'])] + [] == [Hole(['1'])] && args[1] + [] == args[1];
    LiteralsSubstituted(" " + s + " ", [Hole(['1'])], lit, args);
    HoleSubstituted(['0'], Literals(" " + s + " ") + [Hole(['1'])], lit, args);
  }

  // ---------------------------------------------------------------- nested infix calls

  /** a f (b g c) and (a f b) g c. */
  function RightNested(f: string, g: string, a: SqlExpr, b: SqlExpr, c: SqlExpr): SqlExpr {
    Apply(f, [a, Apply(g, [b, c])])
  }

  function LeftNested(f: string, g: string, a: SqlExpr, b: SqlExpr, c: SqlExpr): SqlExpr {
    Apply(g, [Apply(f, [a, b]), c])
  }

  lemma InfixPrints(templates: TemplateTable, op: string, s: string, a: SqlExpr, b: SqlExpr)
    requires op in templates && templates[op] == Infix(s) && Symbol(s)
    requires Printable(templates, a) && Printable(templates, b)
    ensures Printable(templates, Apply(op, [a, b]))
    ensures Print(templates, Apply(op, [a, b])) ==
            Print(templates, a) + (Chars(" " + s + " ") + Print(templates, b))
  {
    InfixComposes(s, Print(templates, a), Print(templates, b));
    hide Compose, SoundTemplate, Symbol;
    assert [a, b][1..] == [b] && [b][1..] == [];
    assert AllPrintable(templates, [b]) && AllPrintable(templates, [a, b]);
    assert PrintAll(templates, [b]) == [Print(templates, b)];
    assert PrintAll(templates, [a, b]) == [Print(templates, a), Print(templates, b)];
  }

  lemma RightNestedPrints(templates: TemplateTable, f: string, g: string, s: string, u: string,
                          a: SqlExpr, b: SqlExpr, c: SqlExpr)
    requires f in templates && templates[f] == Infix(s) && Symbol(s)
    requires g in templates && templates[g] == Infix(u) && Symbol(u)
    requires Printable(templates, a) && Printable(templates, b) && Printable(templates, c)
    ensures Printable(templates, RightNested(f, g, a, b, c))
    ensures Print(templates, RightNested(f, g, a, b, c)) ==
            Print(templates, a) + (Chars(" " + s + " ")
                                   + (Print(templates, b) + (Chars(" " + u + " ") + Print(templates, c))))
  {
    hide Print, Printable, Symbol;
    InfixPrints(templates, g, u, b, c);
    InfixPrints(templates, f, s, a, Apply(g, [b, c]));
  }

  lemma LeftNestedPrints(templates: TemplateTable, f: string, g: string, s: string, u: string,
                         a: SqlExpr, b: SqlExpr, c: SqlExpr)
    requires f in templates && templates[f] == Infix(s) && Symbol(s)
    requires g in templates && templates[g] == Infix(u) && Symbol(u)
    requires Printable(templates, a) && Printable(templates, b) && Printable(templates, c)
    ensures Printable(templates, LeftNested(f, g, a, b, c))
    ensures Print(templates, LeftNested(f, g, a, b, c)) ==
            Print(templates, a) + (Chars(" " + s + " ") + Print(templates, b))
            + (Chars(" " + u + " ") + Print(templates, c))
  {
    hide Print, Printable, Symbol;
    InfixPrints(templates, f, s, a, b);
    InfixPrints(templates, g, u, Apply(f, [a, b]), c);
  }

  lemma Reassociated<T>(x: seq<T>, m: seq<T>, y: seq<T>, n: seq<T>, z: seq<T>)
    ensures x + (m + (y + (n + z))) == x + (m + y) + (n + z)
  {
  }

  /** Nested calls of infix operators print alike, however they are nested: the shipped templates have no
      parentheses. */
  lemma NestedInfixPrintsAlike(templates: TemplateTable, f: string, g: string, s: string, u: string,
                               a: SqlExpr, b: SqlExpr, c: SqlExpr)
    requires f in templates && templates[f] == Infix(s) && Symbol(s)
    requires g in templates && templates[g] == Infix(u) && Symbol(u)
    requires Printable(templates, a) && Printable(templates, b) && Printable(templates, c)
    ensures Printable(templates, RightNested(f, g, a, b, c)) && Printable(templates, LeftNested(f, g, a, b, c))
    ensures Print(templates, RightNested(f, g, a, b, c)) == Print(templates, LeftNested(f, g, a, b, c))
  {
    hide *;
    RightNestedPrints(templates, f, g, s, u, a, b, c);
    LeftNestedPrints(templates, f, g, s, u, a, b, c);
    Reassociated(Print(templates, a), Chars<nat>(" " + s + " "), Print(templates, b), Chars<nat>(" " + u + " "),
            Print(templates, c));
  }

  /** Some database reads both statements with their meaning. */
  ghost predicate BothReadable(setup: Setup, i: Interpretation, a: seq<Select>, b: seq<Select>) {
    exists parse: Parser :: ReadsAs(setup, parse, i, a) && ReadsAs(setup, parse, i, b)
  }

  /** Statements with one text can both be read exactly when they have the same meaning. */
  lemma SameTextReadableExactly(setup: Setup, i: Interpretation, a: seq<Select>, b: seq<Select>)
    requires StatementText(setup, a).Some? && StatementText(setup, a) == StatementText(setup, b)
    ensures BothReadable(setup, i, a, b) <==> SameMeaning(setup, i, a, b)
  {
    hide StatementText, UnionMeaning;
    if SameMeaning(setup, i, a, b) {
      var parse: Parser := (text: string) => Some(a);
      assert ReadsAs(setup, parse, i, a) && ReadsAs(setup, parse, i, b);
    }
  }

  function SingleClause(from: string, joins: seq<string>, e: SqlExpr): seq<Select> {
    [Select(from, joins, [e])]
  }

  lemma AlikePrintedAlike(setup: Setup, from: string, joins: seq<string>, e: SqlExpr, f: SqlExpr)
    requires Printable(setup.templates, e) && Printable(setup.templates, f)
    requires Print(setup.templates, e) == Print(setup.templates, f)
    ensures StatementText(setup, SingleClause(from, joins, e)) == StatementText(setup, SingleClause(from, joins, f))
  {
    hide Print, Printable, SelectText, Gaps;
    var a, b := SingleClause(from, joins, e), SingleClause(from, joins, f);
    assert [e][1..] == [] && [f][1..] == [] && a[1..] == [] && b[1..] == [];
    assert AllPrintable(setup.templates, [e]) && AllPrintable(setup.templates, [f]);
    assert PrintAll(setup.templates, [e]) == [Print(setup.templates, e)] == PrintAll(setup.templates, [f]);
    assert PrintableSelects(setup.templates, a) && PrintableSelects(setup.templates, b);
    assert PrintSelects(setup.templates, a) == [PrintSelect(setup.templates, a[0])];
    assert PrintSelects(setup.templates, b) == [PrintSelect(setup.templates, b[0])];
  }

  /** So a database can read both nestings exactly under meanings that do not tell them apart. */
  lemma NestedInfixNeedsAssociativity(setup: Setup, i: Interpretation, from: string, joins: seq<string>, f: string,
                                      g: string, s: string, u: string, a: SqlExpr, b: SqlExpr, c: SqlExpr)
    requires f in setup.templates && setup.templates[f] == Infix(s) && Symbol(s)
    requires g in setup.templates && setup.templates[g] == Infix(u) && Symbol(u)
    requires Printable(setup.templates, a) && Printable(setup.templates, b) && Printable(setup.templates, c)
    requires StatementText(setup, SingleClause(from, joins, RightNested(f, g, a, b, c))).Some?
    ensures var right, left := SingleClause(from, joins, RightNested(f, g, a, b, c)),
                               SingleClause(from, joins, LeftNested(f, g, a, b, c));
            BothReadable(setup, i, right, left) <==> SameMeaning(setup, i, right, left)
  {
    hide StatementText, BothReadable, SameMeaning, Print, Printable, SingleClause;
    NestedInfixPrintsAlike(setup.templates, f, g, s, u, a, b, c);
    AlikePrintedAlike(setup, from, joins, RightNested(f, g, a, b, c), LeftNested(f, g, a, b, c));
    SameTextReadableExactly(setup, i, SingleClause(from, joins, RightNested(f, g, a, b, c)),
                            SingleClause(from, joins, LeftNested(f, g, a, b, c)));
  }

  // ---------------------------------------------------------------- flat comparisons

  /** A column without spaces in its names and without a dot in its own, or a parameter. */
  predicate Atom(e: SqlExpr) {
    match e
    case Column(table, column) => ' ' !in table && ' ' !in column && '.' !in column
    case Param(_) => true
    case Apply(_, _) => false
  }

  function AtomText(platform: Platform, e: SqlExpr): string {
    match e
    case Column(table, column) => table + "." + column
    case Param(k) => Placeholder(platform, k)
    case Apply(_, _) => ""
  }

  /** Equal, or two parameters that carry no number. */
  predicate SameAtom(platform: Platform, a: SqlExpr, b: SqlExpr) {
    a == b || (platform.Mysql? && a.Param? && b.Param?)
  }

  lemma {:induction false} DigitsOnly(n: nat)
    ensures Digits(n) != "" && forall i :: 0 <= i < |Digits(n)| ==> IsDigit(Digits(n)[i])
  {
    if n >= 10 {
      DigitsOnly(n / 10);
    }
  }

  lemma {:induction false} DigitsDiffer(m: nat, n: nat)
    requires Digits(m) == Digits(n)
    ensures m == n
  {
    var a, b := Digits(m), Digits(n);
    DigitsOnly(m / 10);
    DigitsOnly(n / 10);
    assert a[|a| - 1] == b[|b| - 1];
    assert m % 10 == n % 10;
    if m >= 10 && n >= 10 {
      assert a[..|a| - 1] == Digits(m / 10) && b[..|b| - 1] == Digits(n / 10);
      DigitsDiffer(m / 10, n / 10);
    } else {
      assert |a| == 1 <==> m < 10;
      assert |b| == 1 <==> n < 10;
    }
  }

  lemma PlaceholderHasNoDot(platform: Platform, k: nat)
    ensures '.' !in Placeholder(platform, k) && ' ' !in Placeholder(platform, k)
  {
    DigitsOnly(k);
  }

  lemma FirstSplit(c: char, x: string, y: string)
    requires c !in x
    ensures x == "" <==> (x + [c] + y)[0] == c
  {
    if x != "" {
      assert (x + [c] + y)[0] == x[0];
    }
  }

  lemma LastSplit(c: char, x: string, y: string)
    requires c !in y
    ensures y == "" <==> (x + [c] + y)[|x| + |y|] == c
  {
    if y != "" {
      assert (x + [c] + y)[|x| + |y|] == y[|y| - 1];
    }
  }

  lemma {:induction false} SplitAt(c: char, x: string, y: string, u: string, v: string)
    requires c !in x && c !in u && x + [c] + y == u + [c] + v
    ensures x == u && y == v
  {
    var s := x + [c] + y;
    FirstSplit(c, x, y);
    FirstSplit(c, u, v);
    if x == "" {
      assert s[1..] == y && (u + [c] + v)[1..] == v;
    } else {
      assert s[0] == x[0] == u[0];
      assert s[1..] == x[1..] + [c] + y && s[1..] == u[1..] + [c] + v;
      SplitAt(c, x[1..], y, u[1..], v);
      assert x == [x[0]] + x[1..] && u == [u[0]] + u[1..];
    }
  }

  lemma {:induction false} SplitAtLast(c: char, x: string, y: string, u: string, v: string)
    requires c !in y && c !in v && x + [c] + y == u + [c] + v
    ensures x == u && y == v
    decreases |y|
  {
    var s := x + [c] + y;
    var n := |s| - 1;
    LastSplit(c, x, y);
    LastSplit(c, u, v);
    if y == "" {
      assert s[..n] == x && (u + [c] + v)[..n] == u;
    } else {
      var y1, v1 := y[..|y| - 1], v[..|v| - 1];
      assert s[n] == y[|y| - 1] == v[|v| - 1];
      assert s[..n] == x + [c] + y1 && s[..n] == u + [c] + v1;
      SplitAtLast(c, x, y1, u, v1);
      assert y == y1 + [y[|y| - 1]] && v == v1 + [v[|v| - 1]];
    }
  }

  lemma DotTellsColumns(platform: Platform, e: SqlExpr)
    requires Atom(e)
    ensures '.' in AtomText(platform, e) <==> e.Column?
  {
    match e
    case Column(table, column) =>
      assert (table + "." + column)[|table|] == '.';
    case Param(k) =>
      PlaceholderHasNoDot(platform, k);
  }

  lemma AtomTextsDiffer(platform: Platform, a: SqlExpr, b: SqlExpr)
    requires Atom(a) && Atom(b) && AtomText(platform, a) == AtomText(platform, b)
    ensures SameAtom(platform, a, b)
  {
    DotTellsColumns(platform, a);
    DotTellsColumns(platform, b);
    if a.Column? {
      assert "." == ['.'];
      SplitAtLast('.', a.table, a.column, b.table, b.column);
    } else if platform.Postgres? {
      assert ("$" + Digits(a.k))[1..] == Digits(a.k) && ("$" + Digits(b.k))[1..] == Digits(b.k);
      DigitsDiffer(a.k, b.k);
    }
  }

  lemma AtomPrints(setup: Setup, e: SqlExpr)
    requires Atom(e)
    ensures Printable(setup.templates, e)
    ensures Fill(Placeholders(setup.platform), Print(setup.templates, e)) == AtomText(setup.platform, e)
    ensures ' ' !in AtomText(setup.platform, e)
  {
    match e
    case Column(table, column) =>
      FillChars<nat>(Placeholders(setup.platform), table + "." + column);
    case Param(k) =>
      FillGap<nat>(Placeholders(setup.platform), k);
      PlaceholderHasNoDot(setup.platform, k);
  }

  lemma Respaced(p: string, s: string, q: string)
    ensures p + ((" " + s + " ") + q) == p + " " + (s + " " + q)
  {
    assert " " + s + " " + q == " " + (s + " " + q);
  }

  lemma ComparisonPrints(setup: Setup, op: string, s: string, a: SqlExpr, b: SqlExpr)
    requires op in setup.templates && setup.templates[op] == Infix(s) && Symbol(s) && Atom(a) && Atom(b)
    ensures Printable(setup.templates, Apply(op, [a, b]))
    ensures Fill(Placeholders(setup.platform), Print(setup.templates, Apply(op, [a, b]))) ==
            AtomText(setup.platform, a) + " " + (s + " " + AtomText(setup.platform, b))
  {
    AtomPrints(setup, a);
    AtomPrints(setup, b);
    InfixPrints(setup.templates, op, s, a, b);
    hide Print, Printable, Symbol, Atom, AtomText, Placeholders, Fill, Infix;
    var fill := Placeholders(setup.platform);
    var x, y := Print(setup.templates, a), Print(setup.templates, b);
    FillAppend(fill, x, Chars(" " + s + " ") + y);
    FillAppend(fill, Chars(" " + s + " "), y);
    FillChars<nat>(fill, " " + s + " ");
    var p, q := AtomText(setup.platform, a), AtomText(setup.platform, b);
    assert Fill(fill, x) == p && Fill(fill, y) == q;
    Respaced(p, s, q);
  }

  /** Comparisons of columns and parameters have the same text only if their symbols and operands are the
      same, up to the numbers that MySQL's placeholders do not carry. */
  lemma ComparisonTextsDiffer(setup: Setup, e: SqlExpr, f: SqlExpr, s: string, u: string)
    requires e.Apply? && |e.args| == 2 && Atom(e.args[0]) && Atom(e.args[1])
    requires f.Apply? && |f.args| == 2 && Atom(f.args[0]) && Atom(f.args[1])
    requires e.op in setup.templates && setup.templates[e.op] == Infix(s) && Symbol(s)
    requires f.op in setup.templates && setup.templates[f.op] == Infix(u) && Symbol(u)
    ensures Printable(setup.templates, e) && Printable(setup.templates, f)
    ensures Fill(Placeholders(setup.platform), Print(setup.templates, e)) ==
            Fill(Placeholders(setup.platform), Print(setup.templates, f)) ==>
              && s == u
              && SameAtom(setup.platform, e.args[0], f.args[0]) && SameAtom(setup.platform, e.args[1], f.args[1])
  {
    var a, b, c, d := e.args[0], e.args[1], f.args[0], f.args[1];
    assert e == Apply(e.op, [a, b]) && f == Apply(f.op, [c, d]);
    ComparisonPrints(setup, e.op, s, a, b);
    ComparisonPrints(setup, f.op, u, c, d);
    AtomPrints(setup, a);
    AtomPrints(setup, c);
    hide Print, Printable, Placeholders, Fill;
    var p, q, x, y := AtomText(setup.platform, a), AtomText(setup.platform, b), AtomText(setup.platform, c),
                      AtomText(setup.platform, d);
    if p + " " + (s + " " + q) == x + " " + (u + " " + y) {
      SplitAt(' ', p, s + " " + q, x, u + " " + y);
      SplitAt(' ', s, q, u, y);
      AtomTextsDiffer(setup.platform, a, c);
      AtomTextsDiffer(setup.platform, b, d);
    }
  }
}
