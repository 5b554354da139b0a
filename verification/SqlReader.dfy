/** A database's view of the generated text: a reader of statements whose conditions are comparisons of columns
    and parameters. It is written from the language of these statements and knows nothing of the translator; it
    reads all of them as they were printed. */
module SqlReader {
  import opened Results
  import opened Tokens
  import opened QueryAst
  import opened Templates
  import opened SqlTranslator
  import opened SqlRefinement
  import opened SqlStructure
  import opened SqlTexts
  import opened SqlWords

  // ---------------------------------------------------------------- the reader

  /** The text before and after the last dot. */
  function SplitLast(w: string): (r: Option<(string, string)>)
    ensures r.Some? <==> '.' in w
  {
    if w == "" then None
    else
      match SplitLast(w[1..])
      case Some((table, column)) => Some(([w[0]] + table, column))
      case None => if w[0] == '.' then Some(("", w[1..])) else None
  }

  /** A column, or a parameter: by its number on Postgres, by its position on MySQL. */
  function ReadAtom(platform: Platform, next: nat, w: string): Option<(SqlExpr, nat)> {
    if '.' in w then Some((Column(SplitLast(w).value.0, SplitLast(w).value.1), next))
    else match platform
      case Mysql => if w == "?" then Some((Param(next), next + 1)) else None
      case Postgres =>
        if |w| > 1 && w[0] == '$' && DigitRun(w[1..]) == |w| - 1 then Some((Param(Decimal(w[1..])), next + 1)) else None
  }

  /** What was read, the position of the next parameter, and the words after it. */
  datatype Read<+T> = Read(value: T, next: nat, rest: seq<string>)

  /** Comparisons between AND, up to a closing parenthesis. */
  function ReadClauses(platform: Platform, named: map<string, string>, next: nat, ws: seq<string>):
    (r: Option<Read<seq<SqlExpr>>>)
    ensures r.Some? ==> |r.value.rest| < |ws|
    decreases |ws|
  {
    if |ws| < 3 || ws[1] !in named || ws[2] == "" then None
    else
      var closes := ws[2][|ws[2]| - 1] == ')';
      match ReadAtom(platform, next, ws[0])
      case None => None
      case Some((a, n)) =>
        match ReadAtom(platform, n, if closes then ws[2][..|ws[2]| - 1] else ws[2])
        case None => None
        case Some((b, m)) =>
          var clause := Apply(named[ws[1]], [a, b]);
          if closes then Some(Read([clause], m, ws[3..]))
          else if |ws| > 3 && ws[3] == "AND" then
            match ReadClauses(platform, named, m, ws[4..])
            case None => None
            case Some(more) => Some(Read([clause] + more.value, more.next, more.rest))
          else None
  }

  function ReadWhere(platform: Platform, named: map<string, string>, next: nat, ws: seq<string>):
    (r: Option<Read<seq<SqlExpr>>>)
    ensures r.Some? ==> |r.value.rest| <= |ws|
  {
    if ws == [] || ws[0] != "WHERE" then Some(Read([], next, ws))
    else if |ws| < 2 || ws[1] == "" || ws[1][0] != '(' then None
    else ReadClauses(platform, named, next, [ws[1][1..]] + ws[2..])
  }

  function ReadSelects(platform: Platform, named: map<string, string>, next: nat, ws: seq<string>):
    Option<seq<Select>>
    decreases |ws|
  {
    if !(HEAD <= ws) then None
    else
      match ReadTables(ws[3..])
      case None => None
      case Some((tables, rest)) =>
        match ReadWhere(platform, named, next, rest)
        case None => None
        case Some(condition) =>
          var select := Select(tables[0], tables[1..], condition.value);
          if condition.rest == [] then Some([select])
          else if condition.rest[0] != "UNION" then None
          else
            match ReadSelects(platform, named, condition.next, condition.rest[1..])
            case None => None
            case Some(more) => Some([select] + more)
  }

  /** Reads a statement; `named` says which operator a symbol stands for. */
  function Reader(platform: Platform, named: map<string, string>): string -> Option<seq<Select>> {
    (text: string) => if text == "" then Some([]) else ReadSelects(platform, named, 1, Words(text))
  }

  // ---------------------------------------------------------------- flat queries

  /** The symbol of an infix template. */
  function SymbolOf(t: Template): string {
    if |t.mapping| >= 6 then t.mapping[3..|t.mapping| - 3] else ""
  }

  predicate InfixTemplate(t: Template) {
    t == Infix(SymbolOf(t)) && Symbol(SymbolOf(t))
  }

  lemma SymbolOfInfix(s: string)
    ensures SymbolOf(Infix(s)) == s
  {
  }

  /** Every infix symbol stands for one of the operators that are written with it. */
  predicate NamesSymbols(templates: TemplateTable, named: map<string, string>) {
    forall op :: op in templates && InfixTemplate(templates[op]) ==>
      && SymbolOf(templates[op]) in named
      && named[SymbolOf(templates[op])] in templates
      && templates[named[SymbolOf(templates[op])]] == templates[op]
  }

  lemma SymbolsCanBeNamed(templates: TemplateTable) returns (named: map<string, string>)
    ensures NamesSymbols(templates, named)
  {
    var ops := set op | op in templates && InfixTemplate(templates[op]);
    var symbols := set op | op in ops :: SymbolOf(templates[op]);
    named := map s | s in symbols :: (var op :| op in ops && SymbolOf(templates[op]) == s; op);
  }

  predicate PlainColumn(name: string) {
    ' ' !in name && '.' !in name && ')' !in name
  }

  ghost predicate FlatOperand(setup: Setup, o: Operand) {
    match o
    case Attribute(entity, name) => ' ' !in TableOf(setup, entity) && PlainColumn(name)
    case Const(_) => true
    case Call(_, _) => false
  }

  /** A comparison of columns and constants by an infix operator. */
  ghost predicate FlatClause(setup: Setup, o: Operand) {
    && o.Call? && |o.args| == 2 && FlatOperand(setup, o.args[0]) && FlatOperand(setup, o.args[1])
    && o.op in setup.templates && InfixTemplate(setup.templates[o.op])
  }

  ghost predicate FlatClauses(setup: Setup, os: seq<Operand>) {
    forall i :: 0 <= i < |os| ==> FlatClause(setup, os[i])
  }

  /** The conditions are comparisons, and names have no space and tables no comma. */
  ghost predicate FlatQuery(setup: Setup, q: Query) {
    && FlatClauses(setup, q.clauses)
    && PlainTable(TableOf(setup, q.from))
    && forall i :: 0 <= i < |q.link| ==> PlainTable(TableOf(setup, q.link[i]))
  }

  ghost predicate FlatQueries(setup: Setup, qs: seq<Query>) {
    forall i :: 0 <= i < |qs| ==> FlatQuery(setup, qs[i])
  }

  // ---------------------------------------------------------------- statements as words

  predicate Comparing(templates: TemplateTable, e: SqlExpr) {
    && e.Apply? && |e.args| == 2 && Atom(e.args[0]) && Atom(e.args[1])
    && e.op in templates && InfixTemplate(templates[e.op])
  }

  predicate AllComparing(templates: TemplateTable, es: seq<SqlExpr>) {
    forall i :: 0 <= i < |es| ==> Comparing(templates, es[i])
  }

  function ClauseText(setup: Setup, e: SqlExpr): string
    requires Comparing(setup.templates, e)
  {
    AtomText(setup.platform, e.args[0]) + " "
    + (SymbolOf(setup.templates[e.op]) + " " + AtomText(setup.platform, e.args[1]))
  }

  function ClauseTexts(setup: Setup, es: seq<SqlExpr>): (r: seq<string>)
    requires AllComparing(setup.templates, es)
    ensures |r| == |es|
  {
    if es == [] then [] else [ClauseText(setup, es[0])] + ClauseTexts(setup, es[1..])
  }

  /** The words of a condition after its opening parenthesis. */
  function ClauseWords(setup: Setup, es: seq<SqlExpr>): (ws: seq<string>)
    requires es != [] && AllComparing(setup.templates, es)
    ensures |ws| >= 3
  {
    var a, b := AtomText(setup.platform, es[0].args[0]), AtomText(setup.platform, es[0].args[1]);
    var symbol := SymbolOf(setup.templates[es[0].op]);
    if |es| == 1 then [a, symbol, b + ")"]
    else [a, symbol, b, "AND"] + ClauseWords(setup, es[1..])
  }

  function ConditionWords(setup: Setup, es: seq<SqlExpr>): seq<string>
    requires AllComparing(setup.templates, es)
  {
    if es == [] then [] else ["WHERE"] + Longer("(", ClauseWords(setup, es))
  }

  function SelectWords(setup: Setup, s: Select): (ws: seq<string>)
    requires AllComparing(setup.templates, s.where)
    ensures ws != []
  {
    HEAD + TableWords([s.from] + s.joins) + ConditionWords(setup, s.where)
  }

  predicate AllSelectsCompare(templates: TemplateTable, selects: seq<Select>) {
    forall i :: 0 <= i < |selects| ==> AllComparing(templates, selects[i].where)
  }

  function StatementWords(setup: Setup, selects: seq<Select>): (ws: seq<string>)
    requires selects != [] && AllSelectsCompare(setup.templates, selects)
    ensures ws != []
  {
    if |selects| == 1 then SelectWords(setup, selects[0])
    else SelectWords(setup, selects[0]) + ["UNION"] + StatementWords(setup, selects[1..])
  }

  // ---------------------------------------------------------------- the text is these words

  lemma JoinThree(a: string, b: string, c: string)
    ensures Join([a, b, c], " ") == a + " " + (b + " " + c)
  {
    assert [a, b, c][1..] == [b, c] && [b, c][1..] == [c];
    assert Join([c], " ") == c;
    assert Join([b, c], " ") == b + " " + c;
  }

  lemma {:induction false} ClausesAsWords(setup: Setup, es: seq<SqlExpr>)
    requires es != [] && AllComparing(setup.templates, es)
    ensures Join(ClauseWords(setup, es), " ") == Join(ClauseTexts(setup, es), " AND ") + ")"
  {
    hide InfixTemplate, AtomText;
    var a, b := AtomText(setup.platform, es[0].args[0]), AtomText(setup.platform, es[0].args[1]);
    var symbol := SymbolOf(setup.templates[es[0].op]);
    var text := ClauseText(setup, es[0]);
    if |es| == 1 {
      JoinThree(a, symbol, b + ")");
      assert ClauseTexts(setup, es) == [text];
      assert a + " " + (symbol + " " + (b + ")")) == text + ")";
    } else {
      ClausesAsWords(setup, es[1..]);
      var words, texts := ClauseWords(setup, es[1..]), ClauseTexts(setup, es[1..]);
      assert ClauseTexts(setup, es)[1..] == texts;
      hide ClauseWords, ClauseTexts, ClauseText;
      FourWords(a, symbol, b, words);
      SpacedAnd(text, Join(words, " "), Join(texts, " AND "));
    }
  }

  lemma FourWords(a: string, b: string, c: string, words: seq<string>)
    requires words != []
    ensures Join([a, b, c, "AND"] + words, " ") == a + " " + (b + " " + c) + " AND " + Join(words, " ")
  {
    JoinThree(a, b, c);
    JoinAppend([a, b, c], ["AND"], " ");
    JoinAppend([a, b, c] + ["AND"], words, " ");
    assert [a, b, c] + ["AND"] == [a, b, c, "AND"];
  }

  lemma SpacedAnd(text: string, words: string, texts: string)
    requires words == texts + ")"
    ensures text + " AND " + words == text + " AND " + texts + ")"
  {
  }

  lemma ConditionAsWords(setup: Setup, es: seq<SqlExpr>)
    requires AllComparing(setup.templates, es)
    ensures es == [] ==> WhereText(ClauseTexts(setup, es)) == ""
    ensures es != [] ==> WhereText(ClauseTexts(setup, es)) == " " + Join(ConditionWords(setup, es), " ")
  {
    if es != [] {
      var words := ClauseWords(setup, es);
      ClausesAsWords(setup, es);
      JoinOfLonger("(", words, " ");
      JoinCons("WHERE", Longer("(", words), " ");
      Opened(Join(ClauseTexts(setup, es), " AND "));
      assert WhereText(ClauseTexts(setup, es)) == " WHERE (" + Join(ClauseTexts(setup, es), " AND ") + ")";
    }
  }

  lemma Opened(texts: string)
    ensures " " + ("WHERE" + " " + ("(" + (texts + ")"))) == " WHERE (" + texts + ")"
  {
    assert " " + "WHERE" + " " + "(" == " WHERE (";
  }

  lemma SelectIsWords(setup: Setup, s: Select)
    requires AllComparing(setup.templates, s.where)
    ensures SelectText(s.from, JoinClauses(s.joins), WhereText(ClauseTexts(setup, s.where))) ==
            Join(SelectWords(setup, s), " ")
  {
    var head := HEAD + TableWords([s.from] + s.joins);
    var where := WhereText(ClauseTexts(setup, s.where));
    SelectAsWords(s.from, s.joins);
    SelectWithCondition(s.from, s.joins, where);
    ConditionAsWords(setup, s.where);
    hide SelectText, WhereText, JoinClauses, TableWords, ClauseTexts, Join;
    if s.where == [] {
      assert head + [] == head && Join(head, " ") + "" == Join(head, " ");
    } else {
      var words := ConditionWords(setup, s.where);
      JoinAppend(head, words, " ");
      AfterSpace(Join(head, " "), Join(words, " "));
    }
  }

  lemma AfterSpace(a: string, b: string)
    ensures a + (" " + b) == a + " " + b
  {
  }

  function StatementTexts(setup: Setup, selects: seq<Select>): (r: seq<string>)
    requires AllSelectsCompare(setup.templates, selects)
    ensures |r| == |selects|
  {
    if selects == [] then []
    else [SelectText(selects[0].from, JoinClauses(selects[0].joins), WhereText(ClauseTexts(setup, selects[0].where)))]
         + StatementTexts(setup, selects[1..])
  }

  lemma {:induction false} StatementIsWords(setup: Setup, selects: seq<Select>)
    requires selects != [] && AllSelectsCompare(setup.templates, selects)
    ensures Join(StatementTexts(setup, selects), " UNION ") == Join(StatementWords(setup, selects), " ")
  {
    hide AllComparing, SelectText, WhereText, ClauseTexts, SelectWords, JoinClauses;
    var first := SelectWords(setup, selects[0]);
    SelectIsWords(setup, selects[0]);
    if |selects| > 1 {
      var rest, words := StatementTexts(setup, selects[1..]), StatementWords(setup, selects[1..]);
      StatementIsWords(setup, selects[1..]);
      assert StatementTexts(setup, selects)[1..] == rest;
      JoinAppend(first, ["UNION"], " ");
      JoinAppend(first + ["UNION"], words, " ");
      SpacedUnion(Join(first, " "), Join(words, " "));
    }
  }

  lemma SpacedUnion(a: string, b: string)
    ensures a + " " + "UNION" + " " + b == a + " UNION " + b
  {
    assert " " + "UNION" + " " == " UNION ";
  }
}
