/** The text of a statement as a list of words, and what stands between FROM and WHERE. */
module SqlWords {
  import opened Results
  import opened Tokens
  import opened SqlTranslator

  // ---------------------------------------------------------------- words

  /** The text cut at every space. */
  function Words(s: string): (ws: seq<string>)
    ensures ws != []
  {
    if s == "" then [""]
    else if s[0] == ' ' then [""] + Words(s[1..])
    else
      var ws := Words(s[1..]);
      [[s[0]] + ws[0]] + ws[1..]
  }

  predicate SpaceFree(ws: seq<string>) {
    forall i :: 0 <= i < |ws| ==> ' ' !in ws[i]
  }

  lemma {:induction false} WordAlone(w: string)
    requires ' ' !in w
    ensures Words(w) == [w]
  {
    if w != "" {
      WordAlone(w[1..]);
      assert [w[0]] + w[1..] == w && [w[1..]][1..] == [];
    }
  }

  lemma {:induction false} WordFirst(w: string, rest: string)
    requires ' ' !in w
    ensures Words(w + " " + rest) == [w] + Words(rest)
  {
    var s := w + " " + rest;
    if w == "" {
      assert s[1..] == rest;
    } else {
      WordFirst(w[1..], rest);
      assert s[1..] == w[1..] + " " + rest;
      assert ([w[1..]] + Words(rest))[1..] == Words(rest) && [w[0]] + w[1..] == w;
    }
  }

  lemma {:induction false} WordsOfJoin(ws: seq<string>)
    requires ws != [] && SpaceFree(ws)
    ensures Words(Join(ws, " ")) == ws
  {
    if |ws| == 1 {
      WordAlone(ws[0]);
    } else {
      WordsOfJoin(ws[1..]);
      WordFirst(ws[0], Join(ws[1..], " "));
      assert [ws[0]] + ws[1..] == ws;
    }
  }

  lemma JoinCons(first: string, rest: seq<string>, separator: string)
    requires rest != []
    ensures Join([first] + rest, separator) == first + separator + Join(rest, separator)
  {
    assert ([first] + rest)[1..] == rest;
  }

  /** A text in front of the first word. */
  function Longer(text: string, ws: seq<string>): (r: seq<string>)
    requires ws != []
    ensures |r| == |ws|
  {
    [text + ws[0]] + ws[1..]
  }

  lemma JoinOfLonger(text: string, ws: seq<string>, separator: string)
    requires ws != []
    ensures Join(Longer(text, ws), separator) == text + Join(ws, separator)
  {
    var r := Longer(text, ws);
    assert r[1..] == ws[1..];
    if |ws| > 1 {
      var rest := Join(ws[1..], separator);
      assert text + (ws[0] + separator + rest) == text + ws[0] + separator + rest;
    }
  }

  /** Nothing is lost by cutting. */
  lemma {:induction false} JoinOfWords(s: string)
    ensures Join(Words(s), " ") == s
  {
    if s != "" {
      JoinOfWords(s[1..]);
      var ws := Words(s[1..]);
      hide Join;
      if s[0] == ' ' {
        assert Words(s) == [""] + ws;
        hide Words;
        JoinCons("", ws, " ");
        assert "" + " " + s[1..] == s;
      } else {
        assert Words(s) == Longer([s[0]], ws);
        hide Words;
        JoinOfLonger([s[0]], ws, " ");
        assert [s[0]] + s[1..] == s;
      }
    }
  }

  lemma {:induction false} JoinAppend(a: seq<string>, b: seq<string>, separator: string)
    requires a != [] && b != []
    ensures Join(a + b, separator) == Join(a, separator) + separator + Join(b, separator)
  {
    if |a| == 1 {
      assert (a + b)[1..] == b;
    } else {
      assert (a + b)[1..] == a[1..] + b;
      JoinAppend(a[1..], b, separator);
      Regrouped(a[0] + separator, Join(a[1..], separator), separator, Join(b, separator));
    }
  }

  lemma Regrouped(a: string, b: string, c: string, d: string)
    ensures a + (b + c + d) == a + b + c + d
  {
  }

  // ---------------------------------------------------------------- tables

  predicate PlainTable(t: string) {
    ' ' !in t && ',' !in t
  }

  predicate PlainTables(ts: seq<string>) {
    forall i :: 0 <= i < |ts| ==> PlainTable(ts[i])
  }

  /** Every table but the last is followed by a comma. */
  function TableWords(tables: seq<string>): (ws: seq<string>)
    requires tables != []
    ensures ws != []
  {
    if |tables| == 1 then tables else [tables[0] + ","] + TableWords(tables[1..])
  }

  /** Reads a list of tables: what they are, and the words after them. */
  function ReadTables(ws: seq<string>): (r: Option<(seq<string>, seq<string>)>)
    ensures r.Some? ==> r.value.0 != [] && |r.value.1| < |ws|
  {
    if ws == [] then None
    else
      var w := ws[0];
      if w != "" && w[|w| - 1] == ',' then
        match ReadTables(ws[1..])
        case None => None
        case Some((tables, rest)) => Some(([w[..|w| - 1]] + tables, rest))
      else Some(([w], ws[1..]))
  }

  lemma {:induction false} TablesAreRead(tables: seq<string>, rest: seq<string>)
    requires tables != [] && PlainTables(tables)
    ensures ReadTables(TableWords(tables) + rest) == Some((tables, rest))
    ensures SpaceFree(TableWords(tables))
  {
    var ws := TableWords(tables) + rest;
    assert PlainTable(tables[0]);
    if |tables| == 1 {
      assert ws[0] == tables[0] && ws[1..] == rest && [tables[0]] == tables;
    } else {
      TablesAreRead(tables[1..], rest);
      assert ws[0] == tables[0] + "," && ws[1..] == TableWords(tables[1..]) + rest;
      assert ws[0][..|ws[0]| - 1] == tables[0];
      assert [tables[0]] + tables[1..] == tables;
    }
  }

  lemma {:induction false} TablesAsWords(first: string, joins: seq<string>)
    ensures first + Join(JoinClauses(joins), "") == Join(TableWords([first] + joins), " ")
    decreases |joins|
  {
    if joins == [] {
      assert [first] + joins == [first];
      assert JoinClauses([]) == [] && first + "" == first;
    } else {
      TablesAsWords(joins[0], joins[1..]);
      assert [joins[0]] + joins[1..] == joins && ([first] + joins)[1..] == joins;
      var clauses := JoinClauses(joins);
      assert clauses[1..] == JoinClauses(joins[1..]);
      var rest := Join(JoinClauses(joins[1..]), "");
      assert Join(clauses, "") == ", " + joins[0] + rest;
      assert first + (", " + joins[0] + rest) == (first + ",") + " " + (joins[0] + rest);
    }
  }

  const HEAD := ["SELECT", "count(*)", "FROM"]

  lemma HeadIsSpaceFree()
    ensures SpaceFree(HEAD) && Join(HEAD, " ") == "SELECT count(*) FROM"
  {
    var rest, last := ["count(*)", "FROM"], ["FROM"];
    assert HEAD[1..] == rest && rest[1..] == last;
    assert Join(last, " ") == "FROM";
    assert Join(rest, " ") == "count(*)" + " " + "FROM" == "count(*) FROM";
    assert Join(HEAD, " ") == "SELECT" + " " + "count(*) FROM" == "SELECT count(*) FROM";
  }

  /** Reads the tables of a SELECT: what they are, and the words after them. */
  function ReadFrom(text: string): Option<(seq<string>, seq<string>)> {
    var ws := Words(text);
    if HEAD <= ws then ReadTables(ws[3..]) else None
  }

  /** The words of a SELECT without its condition. */
  lemma SelectAsWords(from: string, joins: seq<string>)
    ensures SelectText(from, JoinClauses(joins), "") == Join(HEAD + TableWords([from] + joins), " ")
  {
    TablesAsWords(from, joins);
    HeadIsSpaceFree();
    JoinAppend(HEAD, TableWords([from] + joins), " ");
    assert "SELECT count(*) FROM" + " " == "SELECT count(*) FROM ";
    assert "SELECT count(*) FROM " + from + Join(JoinClauses(joins), "") + "" ==
           "SELECT count(*) FROM " + (from + Join(JoinClauses(joins), ""));
  }

  /** A SELECT names the table of From and then those of Link, in order, before its condition. */
  lemma SelectNamesItsTables(from: string, joins: seq<string>, condition: string)
    requires PlainTable(from) && PlainTables(joins) && (condition == "" || condition[0] == ' ')
    ensures ReadFrom(SelectText(from, JoinClauses(joins), condition)) ==
            Some(([from] + joins, if condition == "" then [] else Words(condition[1..])))
  {
    var tables := [from] + joins;
    var rest := if condition == "" then [] else Words(condition[1..]);
    assert PlainTables(tables);
    TablesAreRead(tables, rest);
    SelectAsWords(from, joins);
    SelectWithCondition(from, joins, condition);
    HeadIsSpaceFree();
    hide PlainTables, PlainTable, SelectText, TableWords, ReadTables, Words, Join, JoinClauses;
    SpaceFreeAppend(HEAD, TableWords(tables));
    WordsAfterHead(HEAD + TableWords(tables), condition);
    AfterHead(TableWords(tables), rest);
  }

  lemma AfterHead(tables: seq<string>, rest: seq<string>)
    ensures HEAD <= HEAD + tables + rest && (HEAD + tables + rest)[3..] == tables + rest
  {
  }

  lemma SpaceFreeAppend(a: seq<string>, b: seq<string>)
    requires SpaceFree(a) && SpaceFree(b)
    ensures SpaceFree(a + b)
  {
  }

  lemma WordsAfterHead(head: seq<string>, condition: string)
    requires head != [] && SpaceFree(head) && (condition == "" || condition[0] == ' ')
    ensures Words(Join(head, " ") + condition) == head + if condition == "" then [] else Words(condition[1..])
  {
    hide Words, Join, SpaceFree;
    if condition == "" {
      WordsOfJoin(head);
      assert Join(head, " ") + "" == Join(head, " ") && head + [] == head;
    } else {
      var rest := Words(condition[1..]);
      WordsAreSpaceFree(condition[1..]);
      SpaceFreeAppend(head, rest);
      WordsOfJoin(head + rest);
      JoinAppend(head, rest, " ");
      JoinOfWords(condition[1..]);
      assert " " + condition[1..] == condition;
      assert Join(head, " ") + " " + condition[1..] == Join(head, " ") + condition;
    }
  }

  lemma SelectWithCondition(from: string, joins: seq<string>, condition: string)
    ensures SelectText(from, JoinClauses(joins), condition) == SelectText(from, JoinClauses(joins), "") + condition
  {
  }

  lemma {:induction false} WordsAreSpaceFree(s: string)
    ensures SpaceFree(Words(s))
  {
    if s != "" {
      WordsAreSpaceFree(s[1..]);
    }
  }

  // ---------------------------------------------------------------- table names

  /** Reads the text of a table: its schema, which is `public` where none is written, and its name. */
  function ReadTable(text: string): (string, string) {
    match FirstDot(text)
    case None => ("public", text)
    case Some(n) => (text[..n], text[n + 1..])
  }

  function FirstDot(text: string): (r: Option<nat>)
    ensures r.Some? ==> r.value < |text|
  {
    if text == "" then None
    else if text[0] == '.' then Some(0)
    else match FirstDot(text[1..]) case None => None case Some(n) => Some(n + 1)
  }

  lemma {:induction false} FirstDotOf(schema: string, name: string)
    requires '.' !in schema
    ensures FirstDot(schema + "." + name) == Some(|schema|)
  {
    var text := schema + "." + name;
    if schema != "" {
      assert text[1..] == schema[1..] + "." + name;
      FirstDotOf(schema[1..], name);
    }
  }

  lemma {:induction false} NoFirstDot(text: string)
    requires '.' !in text
    ensures FirstDot(text) == None
  {
    if text != "" {
      NoFirstDot(text[1..]);
    }
  }

  /** The text of a table tells its schema and its name; the schema is left out exactly for `public` on
      Postgres. */
  lemma TableIsRead(platform: Platform, schema: string, name: string)
    requires '.' !in schema && '.' !in name
    ensures ReadTable(TableText(platform, schema, name)) == (schema, name)
    ensures '.' !in TableText(platform, schema, name) <==> platform == Postgres && schema == "public"
  {
    if platform == Postgres && schema == "public" {
      NoFirstDot(name);
    } else {
      FirstDotOf(schema, name);
      var text := schema + "." + name;
      assert text[..|schema|] == schema && text[|schema|] == '.' && text[|schema| + 1..] == name;
    }
  }
}
