/** The reader of SqlReader finds in every generated statement of comparisons what was printed. */
module SqlReading {
  import opened Results
  import opened Tokens
  import opened QueryAst
  import opened Templates
  import TemplateReading
  import opened SqlTranslator
  import opened SqlRefinement
  import opened SqlStructure
  import opened SqlTexts
  import opened SqlWords
  import opened SqlReader

  // ---------------------------------------------------------------- the printed text

  lemma {:induction false} ClausesPrint(setup: Setup, es: seq<SqlExpr>)
    requires AllComparing(setup.templates, es)
    ensures AllPrintable(setup.templates, es)
    ensures FillEach(Placeholders(setup.platform), PrintAll(setup.templates, es)) == ClauseTexts(setup, es)
  {
    hide Print, Printable, InfixTemplate, Placeholders, AtomText, Atom;
    var fill := Placeholders(setup.platform);
    if es == [] {
      assert FillEach(fill, []) == [];
    } else {
      ClausePrints(setup, es[0]);
      ClausesPrint(setup, es[1..]);
      FillEachCons(fill, Print(setup.templates, es[0]), PrintAll(setup.templates, es[1..]));
    }
  }

  lemma ClausePrints(setup: Setup, e: SqlExpr)
    requires Comparing(setup.templates, e)
    ensures Printable(setup.templates, e)
    ensures Fill(Placeholders(setup.platform), Print(setup.templates, e)) == ClauseText(setup, e)
  {
    assert e == Apply(e.op, [e.args[0], e.args[1]]);
    ComparisonPrints(setup, e.op, SymbolOf(setup.templates[e.op]), e.args[0], e.args[1]);
  }

  lemma {:induction false} SelectsPrint(setup: Setup, selects: seq<Select>)
    requires AllSelectsCompare(setup.templates, selects)
    ensures PrintableSelects(setup.templates, selects)
    ensures FillEach(Placeholders(setup.platform), PrintSelects(setup.templates, selects)) ==
            StatementTexts(setup, selects)
  {
    hide AllPrintable, PrintSelect, AllComparing, ClauseTexts, SelectText, JoinClauses, WhereText, Placeholders;
    var fill := Placeholders(setup.platform);
    if selects == [] {
      assert FillEach(fill, []) == [];
    } else {
      var first, rest := selects[0], selects[1..];
      SelectsPrint(setup, rest);
      ClausesPrint(setup, first.where);
      FillSelect(setup.templates, fill, first);
      assert selects == [first] + rest;
      PrintSelectsCons(setup.templates, first, rest);
      FillEachCons(fill, PrintSelect(setup.templates, first), PrintSelects(setup.templates, rest));
    }
  }

  /** The text of a statement of comparisons is made of the words of its tables and conditions. */
  lemma StatementTextIsWords(setup: Setup, selects: seq<Select>)
    requires selects != [] && AllSelectsCompare(setup.templates, selects)
    ensures PrintableSelects(setup.templates, selects)
    ensures Fill(Placeholders(setup.platform), PrintUnion(setup.templates, selects)) ==
            Join(StatementWords(setup, selects), " ")
  {
    hide AllSelectsCompare, PrintableSelects, Placeholders;
    SelectsPrint(setup, selects);
    FillJoin(Placeholders(setup.platform), PrintSelects(setup.templates, selects), " UNION ");
    StatementIsWords(setup, selects);
  }

  // ---------------------------------------------------------------- atoms

  lemma {:induction false} SplitLastOf(table: string, column: string)
    requires '.' !in column
    ensures SplitLast(table + "." + column) == Some((table, column))
  {
    var w := table + "." + column;
    if table == "" {
      assert w[1..] == column && w[0] == '.';
    } else {
      assert w[1..] == table[1..] + "." + column && w[0] == table[0];
      SplitLastOf(table[1..], column);
      assert [table[0]] + table[1..] == table;
    }
  }

  /** The decimal value of a printed number is the number. */
  lemma {:induction false} DecimalOfDigits(n: nat)
    ensures Decimal(Digits(n)) == n
  {
    var digits := Digits(n);
    var last := |digits| - 1;
    if n < 10 {
      assert digits[..last] == "";
    } else {
      DecimalOfDigits(n / 10);
      assert digits[..last] == Digits(n / 10);
    }
  }

  /** The placeholder of a parameter: its number after a dollar sign on Postgres, a question mark on MySQL. */
  lemma PlaceholderIsRead(platform: Platform, k: nat, next: nat)
    requires platform == Mysql ==> k == next
    ensures ReadAtom(platform, next, Placeholder(platform, k)) == Some((Param(k), next + 1))
    ensures platform == Mysql ==> Placeholder(platform, k) == "?"
  {
    PlaceholderHasNoDot(platform, k);
    if platform == Postgres {
      var digits := Digits(k);
      DigitsOnly(k);
      TemplateReading.DigitRunOf(digits, "");
      DecimalOfDigits(k);
      assert ("$" + digits)[1..] == digits && digits + "" == digits;
    }
  }

  ghost predicate FlatAtom(platform: Platform, e: SqlExpr, next: nat) {
    match e
    case Column(table, column) => ' ' !in table && PlainColumn(column)
    case Param(k) => platform == Mysql ==> k == next
    case Apply(_, _) => false
  }

  function After(e: SqlExpr, next: nat): nat {
    if e.Param? then next + 1 else next
  }

  lemma AtomIsRead(platform: Platform, e: SqlExpr, next: nat)
    requires FlatAtom(platform, e, next)
    ensures Atom(e) && ReadAtom(platform, next, AtomText(platform, e)) == Some((e, After(e, next)))
    ensures ' ' !in AtomText(platform, e)
  {
    match e
    case Column(table, column) =>
      SplitLastOf(table, column);
      assert (table + "." + column)[|table|] == '.';
    case Param(k) =>
      PlaceholderIsRead(platform, k, next);
      PlaceholderHasNoDot(platform, k);
  }

  lemma AtomDoesNotClose(platform: Platform, e: SqlExpr, next: nat)
    requires FlatAtom(platform, e, next)
    ensures AtomText(platform, e) != ""
    ensures AtomText(platform, e)[|AtomText(platform, e)| - 1] != ')'
  {
    match e
    case Column(table, column) =>
      var text := table + "." + column;
      assert if column == "" then text[|text| - 1] == '.' else text[|text| - 1] == column[|column| - 1];
    case Param(k) =>
      DigitsOnly(k);
      if platform == Postgres {
        var digits := Digits(k);
        assert ("$" + digits)[|digits|] == digits[|digits| - 1];
      }
  }

  // ---------------------------------------------------------------- conditions

  function Canonical(templates: TemplateTable, named: map<string, string>, e: SqlExpr): SqlExpr {
    if e.Apply? && e.op in templates && SymbolOf(templates[e.op]) in named
    then Apply(named[SymbolOf(templates[e.op])], e.args) else e
  }

  /** The same comparisons, each with the operator that its symbol is read as. */
  function AllCanonical(templates: TemplateTable, named: map<string, string>, es: seq<SqlExpr>): (r: seq<SqlExpr>)
    ensures |r| == |es|
  {
    if es == [] then [] else [Canonical(templates, named, es[0])] + AllCanonical(templates, named, es[1..])
  }

  lemma LowerFlatOperand(setup: Setup, o: Operand, at: nat)
    requires FlatOperand(setup, o)
    ensures FlatAtom(setup.platform, Lower(setup, o, at), at + 1)
    ensures Atom(Lower(setup, o, at))
    ensures After(Lower(setup, o, at), at + 1) == at + |ParamValues(o)| + 1
  {
    AtomIsRead(setup.platform, Lower(setup, o, at), at + 1);
  }

  lemma LowerFlatClause(setup: Setup, o: Operand, at: nat)
    requires FlatClause(setup, o)
    ensures var a, b := o.args[0], o.args[1];
            var middle := at + |ParamValues(a)|;
            && Lower(setup, o, at) == Apply(o.op, [Lower(setup, a, at), Lower(setup, b, middle)])
            && Comparing(setup.templates, Lower(setup, o, at))
            && |ParamValues(o)| == |ParamValues(a)| + |ParamValues(b)|
  {
    var a, b := o.args[0], o.args[1];
    var middle := at + |ParamValues(a)|;
    LowerFlatOperand(setup, a, at);
    LowerFlatOperand(setup, b, middle);
    assert o.args == [a, b] && o.args[1..] == [b] && [b][1..] == [];
    assert LowerAll(setup, [b], middle) == [Lower(setup, b, middle)];
    assert LowerAll(setup, o.args, at) == [Lower(setup, a, at), Lower(setup, b, middle)];
    assert AllParamValues([b]) == ParamValues(b) + [];
  }

  lemma {:induction false} LowerFlatClauses(setup: Setup, os: seq<Operand>, at: nat)
    requires FlatClauses(setup, os)
    ensures AllComparing(setup.templates, LowerAll(setup, os, at))
    decreases |os|
  {
    hide FlatClause, Comparing;
    if os != [] {
      assert FlatClause(setup, os[0]);
      LowerFlatClause(setup, os[0], at);
      LowerFlatClauses(setup, os[1..], at + |ParamValues(os[0])|);
    }
  }

  /** The words of one comparison are read as the comparison. */
  lemma ClauseIsRead(setup: Setup, named: map<string, string>, o: Operand, at: nat)
    requires FlatClause(setup, o) && NamesSymbols(setup.templates, named)
    ensures var e := Lower(setup, o, at);
            && Comparing(setup.templates, e)
            && SymbolOf(setup.templates[e.op]) in named
            && var a, b := AtomText(setup.platform, e.args[0]), AtomText(setup.platform, e.args[1]);
               && b != "" && b[|b| - 1] != ')'
               && ReadAtom(setup.platform, at + 1, a).Some?
               && ReadAtom(setup.platform, at + 1, a).value.0 == e.args[0]
               && ReadAtom(setup.platform, ReadAtom(setup.platform, at + 1, a).value.1, b) ==
                  Some((e.args[1], at + |ParamValues(o)| + 1))
               && SpaceFree([a, SymbolOf(setup.templates[e.op]), b])
  {
    hide AtomText, ReadAtom, Infix, SymbolOf;
    var a, b := o.args[0], o.args[1];
    var middle := at + |ParamValues(a)|;
    LowerFlatClause(setup, o, at);
    LowerFlatOperand(setup, a, at);
    LowerFlatOperand(setup, b, middle);
    AtomIsRead(setup.platform, Lower(setup, a, at), at + 1);
    AtomIsRead(setup.platform, Lower(setup, b, middle), middle + 1);
    AtomDoesNotClose(setup.platform, Lower(setup, b, middle), middle + 1);
  }

  lemma {:induction false} ClausesAreRead(setup: Setup, named: map<string, string>, os: seq<Operand>, at: nat,
                                          rest: seq<string>)
    requires os != [] && FlatClauses(setup, os) && NamesSymbols(setup.templates, named)
    ensures var es := LowerAll(setup, os, at);
            && AllComparing(setup.templates, es)
            && SpaceFree(ClauseWords(setup, es))
            && ReadClauses(setup.platform, named, at + 1, ClauseWords(setup, es) + rest) ==
               Some(Read(AllCanonical(setup.templates, named, es), at + |AllParamValues(os)| + 1, rest))
    decreases |os|
  {
    hide FlatClause, NamesSymbols, ReadAtom, AtomText, SymbolOf, Comparing, Lower, ParamValues;
    var es := LowerAll(setup, os, at);
    var later := at + |ParamValues(os[0])|;
    LowerFlatClauses(setup, os, at);
    assert FlatClause(setup, os[0]);
    ClauseIsRead(setup, named, os[0], at);
    var ws := ClauseWords(setup, es) + rest;
    if |os| == 1 {
      assert es == [Lower(setup, os[0], at)] && os[1..] == [];
      LastClauseIsRead(setup, named, es[0], at + 1, later + 1, rest);
    } else {
      ClausesAreRead(setup, named, os[1..], later, rest);
      assert es[1..] == LowerAll(setup, os[1..], later);
      MoreClausesAreRead(setup, named, es, at + 1, later + 1, rest);
    }
  }

  /** How the reader reads a comparison, as far as its atoms go. */
  ghost predicate ReadsComparison(setup: Setup, named: map<string, string>, e: SqlExpr, next: nat, after: nat)
    requires Comparing(setup.templates, e)
  {
    var a, b := AtomText(setup.platform, e.args[0]), AtomText(setup.platform, e.args[1]);
    && SymbolOf(setup.templates[e.op]) in named
    && b != "" && b[|b| - 1] != ')'
    && ReadAtom(setup.platform, next, a).Some?
    && ReadAtom(setup.platform, next, a).value.0 == e.args[0]
    && ReadAtom(setup.platform, ReadAtom(setup.platform, next, a).value.1, b) == Some((e.args[1], after))
    && SpaceFree([a, SymbolOf(setup.templates[e.op]), b])
  }

  lemma LastClauseIsRead(setup: Setup, named: map<string, string>, e: SqlExpr, next: nat, after: nat,
                         rest: seq<string>)
    requires Comparing(setup.templates, e) && ReadsComparison(setup, named, e, next, after)
    ensures SpaceFree(ClauseWords(setup, [e]))
    ensures ReadClauses(setup.platform, named, next, ClauseWords(setup, [e]) + rest) ==
            Some(Read(AllCanonical(setup.templates, named, [e]), after, rest))
  {
    hide ReadAtom, AtomText, SymbolOf;
    var a, b := AtomText(setup.platform, e.args[0]), AtomText(setup.platform, e.args[1]);
    var symbol := SymbolOf(setup.templates[e.op]);
    var ws := [a, symbol, b + ")"] + rest;
    assert ClauseWords(setup, [e]) + rest == ws && ws[3..] == rest;
    assert (b + ")")[..|b + ")"| - 1] == b && (b + ")")[|b + ")"| - 1] == ')';
    assert SpaceFree([a, symbol, b + ")"]) by { ClosedIsSpaceFree(a, symbol, b); }
    assert e.args == [e.args[0], e.args[1]];
    assert AllCanonical(setup.templates, named, [e]) == [Canonical(setup.templates, named, e)];
  }

  lemma MoreClausesAreRead(setup: Setup, named: map<string, string>, es: seq<SqlExpr>, next: nat, after: nat,
                           rest: seq<string>)
    requires |es| > 1 && AllComparing(setup.templates, es) && ReadsComparison(setup, named, es[0], next, after)
    requires SpaceFree(ClauseWords(setup, es[1..]))
    requires ReadClauses(setup.platform, named, after, ClauseWords(setup, es[1..]) + rest).Some?
    ensures SpaceFree(ClauseWords(setup, es))
    ensures var more := ReadClauses(setup.platform, named, after, ClauseWords(setup, es[1..]) + rest).value;
            ReadClauses(setup.platform, named, next, ClauseWords(setup, es) + rest) ==
            Some(Read([Canonical(setup.templates, named, es[0])] + more.value, more.next, more.rest))
  {
    hide ReadAtom, AtomText, SymbolOf;
    var e := es[0];
    var a, b := AtomText(setup.platform, e.args[0]), AtomText(setup.platform, e.args[1]);
    var symbol := SymbolOf(setup.templates[e.op]);
    var words := ClauseWords(setup, es[1..]);
    var ws := [a, symbol, b, "AND"] + words + rest;
    assert ClauseWords(setup, es) + rest == ws && ws[4..] == words + rest;
    SpaceFreeParts(a, symbol, b, words);
    hide SpaceFree, ClauseWords;
    assert e.args == [e.args[0], e.args[1]];
  }

  lemma ClosedIsSpaceFree(a: string, b: string, c: string)
    requires SpaceFree([a, b, c])
    ensures SpaceFree([a, b, c + ")"])
  {
    var ws := [a, b, c];
    assert ' ' !in ws[0] && ' ' !in ws[1] && ' ' !in ws[2];
  }

  lemma SpaceFreeParts(a: string, b: string, c: string, words: seq<string>)
    requires SpaceFree([a, b, c]) && SpaceFree(words)
    ensures SpaceFree([a, b, c, "AND"] + words)
  {
    var ws := [a, b, c];
    assert ' ' !in ws[0] && ' ' !in ws[1] && ' ' !in ws[2];
  }

  lemma ConditionIsRead(setup: Setup, named: map<string, string>, os: seq<Operand>, at: nat, rest: seq<string>)
    requires FlatClauses(setup, os) && NamesSymbols(setup.templates, named)
    requires rest == [] || rest[0] == "UNION"
    ensures var es := LowerAll(setup, os, at);
            && AllComparing(setup.templates, es)
            && SpaceFree(ConditionWords(setup, es))
            && ReadWhere(setup.platform, named, at + 1, ConditionWords(setup, es) + rest) ==
               Some(Read(AllCanonical(setup.templates, named, es), at + |AllParamValues(os)| + 1, rest))
  {
    hide FlatClauses, NamesSymbols, AllComparing, ClauseWords, ReadClauses, SpaceFree;
    var es := LowerAll(setup, os, at);
    LowerFlatClauses(setup, os, at);
    if os == [] {
      assert ConditionWords(setup, es) + rest == rest;
      NothingSpaced();
    } else {
      ClausesAreRead(setup, named, os, at, rest);
      var words := ClauseWords(setup, es);
      var ws := ["WHERE"] + Longer("(", words) + rest;
      OpenedWords(words, rest);
      LongerIsSpaceFree(words);
      assert ConditionWords(setup, es) + rest == ws;
    }
  }

  lemma NothingSpaced()
    ensures SpaceFree([])
  {
  }

  lemma LongerIsSpaceFree(words: seq<string>)
    requires words != [] && SpaceFree(words)
    ensures SpaceFree(["WHERE"] + Longer("(", words))
  {
  }

  lemma OpenedWords(words: seq<string>, rest: seq<string>)
    requires words != []
    ensures var ws := ["WHERE"] + Longer("(", words) + rest;
            && |ws| >= 2 && ws[0] == "WHERE" && ws[1] != "" && ws[1][0] == '('
            && [ws[1][1..]] + ws[2..] == words + rest
  {
    var ws := ["WHERE"] + Longer("(", words) + rest;
    assert ws[1] == "(" + words[0] && ws[1][1..] == words[0];
    assert ws[2..] == words[1..] + rest;
  }

  // ---------------------------------------------------------------- statements

  function CanonicalSelect(templates: TemplateTable, named: map<string, string>, s: Select): Select {
    Select(s.from, s.joins, AllCanonical(templates, named, s.where))
  }

  function CanonicalSelects(templates: TemplateTable, named: map<string, string>, selects: seq<Select>):
    (r: seq<Select>)
    ensures |r| == |selects|
  {
    if selects == [] then []
    else [CanonicalSelect(templates, named, selects[0])] + CanonicalSelects(templates, named, selects[1..])
  }

  lemma TablesArePlain(setup: Setup, q: Query)
    requires FlatQuery(setup, q)
    ensures PlainTables([TableOf(setup, q.from)] + TablesOf(setup, q.link))
  {
  }

  /** The words start with the SELECT, with its operators as they are read, and go on with `rest`. */
  ghost predicate StartsWith(setup: Setup, named: map<string, string>, s: Select, next: nat, after: nat,
                             ws: seq<string>, rest: seq<string>)
  {
    && HEAD <= ws
    && ReadTables(ws[3..]).Some?
    && ReadTables(ws[3..]).value.0 == [s.from] + s.joins
    && ReadWhere(setup.platform, named, next, ReadTables(ws[3..]).value.1) ==
       Some(Read(AllCanonical(setup.templates, named, s.where), after, rest))
  }

  lemma LastSelectIsRead(setup: Setup, named: map<string, string>, s: Select, next: nat, after: nat, ws: seq<string>)
    requires StartsWith(setup, named, s, next, after, ws, [])
    ensures ReadSelects(setup.platform, named, next, ws) == Some([CanonicalSelect(setup.templates, named, s)])
  {
    hide ReadTables, ReadWhere, AllCanonical;
    assert ([s.from] + s.joins)[1..] == s.joins;
  }

  lemma MoreSelectsAreRead(setup: Setup, named: map<string, string>, s: Select, next: nat, after: nat,
                           ws: seq<string>, words: seq<string>)
    requires StartsWith(setup, named, s, next, after, ws, ["UNION"] + words)
    requires ReadSelects(setup.platform, named, after, words).Some?
    ensures ReadSelects(setup.platform, named, next, ws) ==
            Some([CanonicalSelect(setup.templates, named, s)]
                 + ReadSelects(setup.platform, named, after, words).value)
  {
    hide ReadTables, ReadWhere, AllCanonical;
    assert ([s.from] + s.joins)[1..] == s.joins && (["UNION"] + words)[1..] == words;
  }

  lemma SelectStarts(setup: Setup, named: map<string, string>, s: Select, next: nat, after: nat, rest: seq<string>)
    requires AllComparing(setup.templates, s.where) && PlainTables([s.from] + s.joins)
    requires SpaceFree(ConditionWords(setup, s.where))
    requires ReadWhere(setup.platform, named, next, ConditionWords(setup, s.where) + rest) ==
             Some(Read(AllCanonical(setup.templates, named, s.where), after, rest))
    ensures SpaceFree(SelectWords(setup, s))
    ensures StartsWith(setup, named, s, next, after, SelectWords(setup, s) + rest, rest)
  {
    hide AllComparing, ConditionWords, ReadWhere, PlainTables, TableWords, ReadTables, SpaceFree, AllCanonical;
    var tables := [s.from] + s.joins;
    var condition := ConditionWords(setup, s.where);
    TablesAreRead(tables, condition + rest);
    SelectWordsAreSpaceFree(TableWords(tables), condition);
    AfterHead(TableWords(tables), condition + rest);
    hide HEAD;
    assert SelectWords(setup, s) + rest == HEAD + TableWords(tables) + (condition + rest);
  }

  /** The words of a SELECT are read as the SELECT. */
  lemma SelectIsRead(setup: Setup, named: map<string, string>, q: Query, at: nat, rest: seq<string>)
    requires FlatQuery(setup, q) && NamesSymbols(setup.templates, named)
    requires rest == [] || rest[0] == "UNION"
    ensures var s := LowerQuery(setup, q, at);
            && AllComparing(setup.templates, s.where)
            && SpaceFree(SelectWords(setup, s))
            && StartsWith(setup, named, s, at + 1, at + |QueryValues(q)| + 1, SelectWords(setup, s) + rest, rest)
  {
    hide StartsWith, SelectWords, ConditionWords, ReadWhere, SpaceFree, NamesSymbols, PlainTables;
    TablesArePlain(setup, q);
    ConditionIsRead(setup, named, q.clauses, at, rest);
    SelectStarts(setup, named, LowerQuery(setup, q, at), at + 1, at + |QueryValues(q)| + 1, rest);
  }

  lemma SelectWordsAreSpaceFree(tables: seq<string>, condition: seq<string>)
    requires SpaceFree(tables) && SpaceFree(condition)
    ensures SpaceFree(HEAD + tables + condition)
  {
    HeadIsSpaceFree();
    hide SpaceFree;
    SpaceFreeAppend(HEAD, tables);
    SpaceFreeAppend(HEAD + tables, condition);
  }

  lemma {:induction false} StatementIsRead(setup: Setup, named: map<string, string>, qs: seq<Query>, at: nat)
    requires qs != [] && FlatQueries(setup, qs) && NamesSymbols(setup.templates, named)
    ensures IsRead(setup, named, LowerUnion(setup, qs, at), at + 1)
    decreases |qs|
  {
    var later := at + |QueryValues(qs[0])|;
    var first, rest := LowerQuery(setup, qs[0], at), LowerUnion(setup, qs[1..], later);
    assert FlatQuery(setup, qs[0]) && LowerUnion(setup, qs, at) == [first] + rest;
    if |qs| == 1 {
      assert rest == [] && [first] + rest == [first];
      hide *;
      LastIsRead(setup, named, qs[0], at);
    } else {
      assert FlatQueries(setup, qs[1..]) by {
        assert forall k :: 0 <= k < |qs[1..]| ==> qs[1..][k] == qs[k + 1];
      }
      hide *;
      StatementIsRead(setup, named, qs[1..], later);
      MoreIsRead(setup, named, qs[0], at, rest);
    }
  }

  /** The words of the statement are read as its SELECTs, with their operators as they are read. */
  ghost predicate IsRead(setup: Setup, named: map<string, string>, selects: seq<Select>, next: nat) {
    && selects != [] && AllSelectsCompare(setup.templates, selects)
    && SpaceFree(StatementWords(setup, selects))
    && ReadSelects(setup.platform, named, next, StatementWords(setup, selects)) ==
       Some(CanonicalSelects(setup.templates, named, selects))
  }

  lemma LastIsRead(setup: Setup, named: map<string, string>, q: Query, at: nat)
    requires FlatQuery(setup, q) && NamesSymbols(setup.templates, named)
    ensures IsRead(setup, named, [LowerQuery(setup, q, at)], at + 1)
  {
    hide FlatQuery, NamesSymbols, AllComparing, SelectWords, SpaceFree, LowerQuery, StartsWith, ReadSelects,
      CanonicalSelect;
    var s := LowerQuery(setup, q, at);
    SelectIsRead(setup, named, q, at, []);
    assert SelectWords(setup, s) + [] == SelectWords(setup, s);
    LastSelectIsRead(setup, named, s, at + 1, at + |QueryValues(q)| + 1, SelectWords(setup, s));
    assert CanonicalSelects(setup.templates, named, [s]) == [CanonicalSelect(setup.templates, named, s)];
  }

  lemma MoreIsRead(setup: Setup, named: map<string, string>, q: Query, at: nat, rest: seq<Select>)
    requires FlatQuery(setup, q) && NamesSymbols(setup.templates, named)
    requires IsRead(setup, named, rest, at + |QueryValues(q)| + 1)
    ensures IsRead(setup, named, [LowerQuery(setup, q, at)] + rest, at + 1)
  {
    hide FlatQuery, NamesSymbols, AllComparing, SelectWords, SpaceFree, LowerQuery, StartsWith, ReadSelects,
      CanonicalSelect, QueryValues, StatementWords;
    var s := LowerQuery(setup, q, at);
    var words := StatementWords(setup, rest);
    SelectIsRead(setup, named, q, at, ["UNION"] + words);
    MoreSelectsAreRead(setup, named, s, at + 1, at + |QueryValues(q)| + 1,
                       SelectWords(setup, s) + (["UNION"] + words), words);
    MoreStatementWords(setup, s, rest);
    assert ([s] + rest)[1..] == rest;
  }

  lemma MoreStatementWords(setup: Setup, first: Select, rest: seq<Select>)
    requires AllComparing(setup.templates, first.where) && rest != [] && AllSelectsCompare(setup.templates, rest)
    requires SpaceFree(SelectWords(setup, first)) && SpaceFree(StatementWords(setup, rest))
    ensures AllSelectsCompare(setup.templates, [first] + rest)
    ensures StatementWords(setup, [first] + rest) ==
            SelectWords(setup, first) + (["UNION"] + StatementWords(setup, rest))
    ensures SpaceFree(StatementWords(setup, [first] + rest))
  {
    hide SelectWords, AllComparing;
    assert ([first] + rest)[1..] == rest;
    UnionIsSpaceFree();
    hide SpaceFree;
    SpaceFreeAppend(SelectWords(setup, first), ["UNION"]);
    SpaceFreeAppend(SelectWords(setup, first) + ["UNION"], StatementWords(setup, rest));
    assert SelectWords(setup, first) + ["UNION"] + StatementWords(setup, rest) ==
           SelectWords(setup, first) + (["UNION"] + StatementWords(setup, rest));
  }

  lemma UnionIsSpaceFree()
    ensures SpaceFree(["UNION"])
  {
  }
}
