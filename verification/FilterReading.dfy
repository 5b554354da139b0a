/** The reader of FilterReader finds in every generated filter the comparisons that were printed. */
module FilterReading {
  import opened Results
  import opened Tokens
  import opened Templates
  import opened TemplateReading
  import opened MongoTranslator
  import opened MongoMeaning
  import opened JsonText
  import opened FilterReader

  // ---------------------------------------------------------------- the templates of relations

  /** A text around two operands. */
  function Around(a: string, b: string): Template {
    Template(2, "$0" + a + "$1" + b)
  }

  /** Equality leaves out the relation: "$0: $1", and "$0: { \"$lt\": $1 }". */
  function Relation(mark: string): Template {
    if mark == "" then Around(": ", "") else Around(": { \"" + mark + "\": ", " }")
  }

  /** The relation of a template. */
  function MarkOf(t: Template): string {
    if t == Relation("") || |t.mapping| < 14 then "" else t.mapping[7..|t.mapping| - 7]
  }

  predicate Mark(mark: string) {
    PlainText(mark) && NoHole(mark)
  }

  predicate RelationTemplate(t: Template) {
    t == Relation(MarkOf(t)) && Mark(MarkOf(t))
  }

  /** The shipped templates are of this kind. */
  lemma ShippedRelations()
    ensures Relation("") == Template(2, "$0: $1") && Mark("")
    ensures Relation("$ne") == Template(2, "$0: { \"$ne\": $1 }") && Mark("$ne")
    ensures Relation("$lte") == Template(2, "$0: { \"$lte\": $1 }") && Mark("$lte")
  {
    assert "$0" + ": { \"" + "$ne" + "\": " + "$1" + " }" == "$0: { \"$ne\": $1 }";
    assert "$0" + ": { \"" + "$lte" + "\": " + "$1" + " }" == "$0: { \"$lte\": $1 }";
  }

  lemma MarkOfRelation(mark: string)
    requires mark != ""
    ensures MarkOf(Relation(mark)) == mark
  {
    var mapping := Relation(mark).mapping;
    assert mapping[7..|mapping| - 7] == mark;
    assert mapping[4] == '{';
  }

  lemma AroundPieces(a: string, b: string)
    requires NoHole(a) && NoHole(b) && a != "" && !IsDigit(a[0]) && a[|a| - 1] != '$'
    requires b != "" ==> !IsDigit(b[0]) && b[|b| - 1] != '$'
    ensures Pieces(Around(a, b).mapping) ==
            [Hole(['0'])] + (Literals(a) + ([Hole(['1'])] + (Literals(b) + [])))
  {
    hide Pieces, NoHole, Literals;
    NothingRead();
    var last := "$" + "1" + b;
    PiecesOfLiterals(b, "");
    assert b + "" == b;
    HoleIsRead("1", b);
    PiecesOfLiterals(a, last);
    assert (a + last)[0] == a[0];
    HoleIsRead("0", a + last);
    AroundMapping(a, b);
  }

  lemma AroundMapping(a: string, b: string)
    ensures Around(a, b).mapping == "$" + "0" + (a + ("$" + "1" + b))
    ensures "0" == ['0'] && "1" == ['1']
  {
    assert "$0" == "$" + "0" && "$1" == "$" + "1";
  }

  lemma NothingRead()
    ensures Pieces("") == []
  {
  }

  lemma DecimalZeroOne()
    ensures Decimal(['0']) == 0 && Decimal(['1']) == 1
  {
    assert ['0'][..0] == "" && ['1'][..0] == "";
  }

  lemma NothingSubstituted<T>(lit: char -> T, args: seq<seq<T>>)
    ensures HolesBelow([], |args|) && Substitute([], lit, args) == []
  {
  }

  lemma AroundSubstitutes(a: string, b: string, lit: char -> char, x: string, y: string)
    requires NoHole(a) && NoHole(b) && a != "" && !IsDigit(a[0]) && a[|a| - 1] != '$'
    requires b != "" ==> !IsDigit(b[0]) && b[|b| - 1] != '$'
    requires forall c :: lit(c) == c
    ensures HolesBelow(Pieces(Around(a, b).mapping), 2)
    ensures Substitute(Pieces(Around(a, b).mapping), lit, [x, y]) == x + (a + (y + b))
  {
    AroundPieces(a, b);
    hide Pieces, NoHole, Literals, Decimal, HolesBelow, Substitute, Around;
    DecimalZeroOne();
    var args := [x, y];
    var after := Literals(b) + [];
    NothingSubstituted(lit, args);
    LiteralsSubstituted(b, [], lit, args);
    HoleSubstituted(['1'], after, lit, args);
    var middle := [Hole(['1'])] + after;
    LiteralsSubstituted(a, middle, lit, args);
    HoleSubstituted(['0'], Literals(a) + middle, lit, args);
    assert b + [] == b;
  }

  lemma MarkedAround(mark: string)
    requires Mark(mark)
    ensures var a := ": { \"" + mark + "\": ";
            NoHole(a) && !IsDigit(a[0]) && a[|a| - 1] != '$'
    ensures NoHole(": ") && NoHole(" }") && NoHole("") && !IsDigit(':') && !IsDigit(' ')
  {
    var a := ": { \"" + mark + "\": ";
    forall i | 0 <= i < |a| - 1 && a[i] == '$' ensures !IsDigit(a[i + 1]) {
      assert 5 <= i < 5 + |mark| && a[i] == mark[i - 5];
      if i - 5 < |mark| - 1 {
        assert a[i + 1] == mark[i - 4];
      } else {
        assert a[i + 1] == '"';
      }
    }
  }

  /** A comparison is written as a member of an object. */
  lemma FieldIsMember(t: Template, f: Field)
    requires RelationTemplate(t) && WellFormed(t)
    ensures t.argsCount == 2 && FieldText(t, f) == MemberText(MarkOf(t), f)
  {
    var mark := MarkOf(t);
    var key, c := "\"" + f.key + "\"", ConstantText(f.constant);
    MarkedAround(mark);
    hide ConstantText, Pieces, NoHole, Mark, MarkOf, Substitute;
    if mark == "" {
      AroundSubstitutes(": ", "", (ch: char) => ch, key, c);
      MemberOfEquality(f.key, c);
    } else {
      AroundSubstitutes(": { \"" + mark + "\": ", " }", (ch: char) => ch, key, c);
      MemberOfRelation(f.key, mark, c);
    }
  }

  lemma MemberOfEquality(key: string, c: string)
    ensures "\"" + key + "\"" + (": " + (c + "")) == "\"" + key + "\": " + c
  {
    assert "\": " == "\"" + ": ";
  }

  lemma MemberOfRelation(key: string, mark: string, c: string)
    ensures "\"" + key + "\"" + (": { \"" + mark + "\": " + (c + " }")) ==
            "\"" + key + "\": " + ("{ \"" + mark + "\": " + c + " }")
  {
    assert ": { \"" == ": " + "{ \"" && "\": " == "\"" + ": ";
    var relation := "{ \"" + mark + "\": " + c + " }";
    assert ": { \"" + mark + "\": " + (c + " }") == ": " + relation;
    assert "\"" + key + "\"" + (": " + relation) == "\"" + key + "\": " + relation;
  }

  // ---------------------------------------------------------------- lists of members and of objects

  /** Every relation stands for one of the operators that are written with it. */
  predicate NamesRelations(ts: TemplateTable, named: map<string, string>) {
    forall op :: op in ts && RelationTemplate(ts[op]) ==>
      && MarkOf(ts[op]) in named && named[MarkOf(ts[op])] in ts && ts[named[MarkOf(ts[op])]] == ts[op]
  }

  lemma RelationsCanBeNamed(ts: TemplateTable) returns (named: map<string, string>)
    ensures NamesRelations(ts, named)
  {
    hide Mark, MarkOf, Relation;
    var ops := set op | op in ts && RelationTemplate(ts[op]);
    var marks := set op | op in ops :: MarkOf(ts[op]);
    named := map m | m in marks :: (var op :| op in ops && MarkOf(ts[op]) == m; op);
    forall op | op in ts && RelationTemplate(ts[op])
      ensures MarkOf(ts[op]) in named && named[MarkOf(ts[op])] in ts && ts[named[MarkOf(ts[op])]] == ts[op]
    {
      assert op in ops && MarkOf(ts[op]) in marks;
      assert RelationTemplate(ts[named[MarkOf(ts[op])]]);
    }
  }

  /** The comparison can be written and read. */
  predicate PlainField(ts: TemplateTable, f: Field) {
    f.op in ts && RelationTemplate(ts[f.op]) && PlainText(f.key) && PlainConstant(f.constant)
  }

  predicate PlainFields(ts: TemplateTable, fields: seq<Field>) {
    forall i :: 0 <= i < |fields| ==> PlainField(ts, fields[i])
  }

  function MemberTexts(ts: TemplateTable, fields: seq<Field>): (r: seq<string>)
    requires PlainFields(ts, fields)
    ensures |r| == |fields|
  {
    if fields == [] then []
    else [MemberText(MarkOf(ts[fields[0].op]), fields[0])] + MemberTexts(ts, fields[1..])
  }

  /** The comparison with the operator that its relation is read as. */
  function CanonicalField(ts: TemplateTable, named: map<string, string>, f: Field): Field {
    if f.op in ts && MarkOf(ts[f.op]) in named then Field(f.key, named[MarkOf(ts[f.op])], f.constant) else f
  }

  function CanonicalFields(ts: TemplateTable, named: map<string, string>, fields: seq<Field>): (r: seq<Field>)
    ensures |r| == |fields|
  {
    if fields == [] then [] else [CanonicalField(ts, named, fields[0])] + CanonicalFields(ts, named, fields[1..])
  }

  lemma FieldIsRead(ts: TemplateTable, named: map<string, string>, f: Field, rest: string)
    requires PlainField(ts, f) && NamesRelations(ts, named) && rest != "" && !IsNumberChar(rest[0])
    ensures ReadMember(named, MemberText(MarkOf(ts[f.op]), f) + rest) == Some((CanonicalField(ts, named, f), rest))
  {
    hide ReadMember, MemberText, MarkOf, NoHole;
    MemberIsRead(named, MarkOf(ts[f.op]), f, rest);
  }

  lemma {:induction false} MembersAreRead(ts: TemplateTable, named: map<string, string>, fields: seq<Field>,
                                          rest: string)
    requires fields != [] && PlainFields(ts, fields) && NamesRelations(ts, named)
    ensures ReadMembers(named, Join(MemberTexts(ts, fields), ", ") + ("}" + rest)) ==
            Some((CanonicalFields(ts, named, fields), rest))
    decreases |fields|
  {
    assert PlainField(ts, fields[0]) && fields[0].op in ts;
    hide PlainField, NamesRelations, MemberText, ReadMember, MarkOf, CanonicalField, IsNumberChar, Expect;
    var text := MemberText(MarkOf(ts[fields[0].op]), fields[0]);
    SpaceIsNoNumber();
    if |fields| == 1 {
      FieldIsRead(ts, named, fields[0], "}" + rest);
      ExpectOther(", ", "}" + rest);
      ExpectPrefix("}", rest);
      assert MemberTexts(ts, fields) == [text];
      assert CanonicalFields(ts, named, fields) == [CanonicalField(ts, named, fields[0])];
    } else {
      var more := Join(MemberTexts(ts, fields[1..]), ", ") + ("}" + rest);
      MembersAreRead(ts, named, fields[1..], rest);
      FieldIsRead(ts, named, fields[0], ", " + more);
      ExpectPrefix(", ", more);
      assert MemberTexts(ts, fields)[1..] == MemberTexts(ts, fields[1..]);
      JoinedParts(text, Join(MemberTexts(ts, fields[1..]), ", "), "}" + rest);
    }
  }

  lemma JoinedParts(first: string, more: string, rest: string)
    ensures first + ", " + more + rest == first + (", " + (more + rest))
  {
  }

  predicate AllPlainFields(ts: TemplateTable, objects: seq<seq<Field>>) {
    forall i :: 0 <= i < |objects| ==> objects[i] != [] && PlainFields(ts, objects[i])
  }

  function WrittenObject(ts: TemplateTable, fields: seq<Field>): string
    requires PlainFields(ts, fields)
  {
    "{" + Join(MemberTexts(ts, fields), ", ") + "}"
  }

  function WrittenObjects(ts: TemplateTable, objects: seq<seq<Field>>): (r: seq<string>)
    requires AllPlainFields(ts, objects)
    ensures |r| == |objects|
  {
    if objects == [] then [] else [WrittenObject(ts, objects[0])] + WrittenObjects(ts, objects[1..])
  }

  function CanonicalObjects(ts: TemplateTable, named: map<string, string>, objects: seq<seq<Field>>):
    (r: seq<seq<Field>>)
    ensures |r| == |objects|
  {
    if objects == [] then [] else [CanonicalFields(ts, named, objects[0])] + CanonicalObjects(ts, named, objects[1..])
  }

  /** How an object starts and what follows it. */
  lemma ObjectIsRead(ts: TemplateTable, named: map<string, string>, fields: seq<Field>, rest: string)
    requires fields != [] && PlainFields(ts, fields) && NamesRelations(ts, named)
    ensures var inner := Expect("{", WrittenObject(ts, fields) + rest);
            inner.Some? && ReadMembers(named, inner.value) == Some((CanonicalFields(ts, named, fields), rest))
  {
    hide PlainFields, NamesRelations, MemberTexts, ReadMembers, CanonicalFields, Join, Expect;
    var members := Join(MemberTexts(ts, fields), ", ");
    MembersAreRead(ts, named, fields, rest);
    ExpectPrefix("{", members + ("}" + rest));
    assert "{" + members + "}" + rest == "{" + (members + ("}" + rest));
  }

  lemma {:induction false} ObjectsAreRead(ts: TemplateTable, named: map<string, string>, objects: seq<seq<Field>>,
                                          rest: string)
    requires objects != [] && AllPlainFields(ts, objects) && NamesRelations(ts, named)
    requires rest == "" || rest[0] != ','
    ensures ReadObjects(named, Join(WrittenObjects(ts, objects), ", ") + rest) ==
            Some((CanonicalObjects(ts, named, objects), rest))
    decreases |objects|
  {
    hide PlainFields, NamesRelations, WrittenObject, ReadMembers, CanonicalFields, Expect;
    var text := WrittenObject(ts, objects[0]);
    assert AllPlainFields(ts, objects[1..]);
    hide AllPlainFields;
    if |objects| == 1 {
      ObjectIsRead(ts, named, objects[0], rest);
      ExpectOther(", ", rest);
      assert WrittenObjects(ts, objects) == [text];
      assert CanonicalObjects(ts, named, objects) == [CanonicalFields(ts, named, objects[0])];
    } else {
      var more := Join(WrittenObjects(ts, objects[1..]), ", ") + rest;
      ObjectsAreRead(ts, named, objects[1..], rest);
      ObjectIsRead(ts, named, objects[0], ", " + more);
      ExpectPrefix(", ", more);
      assert WrittenObjects(ts, objects)[1..] == WrittenObjects(ts, objects[1..]);
      JoinedParts(text, Join(WrittenObjects(ts, objects[1..]), ", "), rest);
    }
  }

  lemma NothingWritten(ts: TemplateTable, named: map<string, string>, objects: seq<seq<Field>>)
    requires objects == []
    ensures AllPlainFields(ts, objects) && Join(WrittenObjects(ts, objects), ", ") == ""
    ensures CanonicalObjects(ts, named, objects) == []
  {
  }

  /** The text of objects starts with a brace. */
  lemma SomethingWritten(ts: TemplateTable, objects: seq<seq<Field>>, rest: string)
    requires objects != [] && AllPlainFields(ts, objects)
    ensures var text := Join(WrittenObjects(ts, objects), ", ") + rest;
            text != "" && text[0] == '{'
  {
    hide PlainFields;
  }

  /** A combined filter is read as the objects it was made from. */
  lemma FilterIsRead(ts: TemplateTable, named: map<string, string>, objects: seq<seq<Field>>)
    requires AllPlainFields(ts, objects) && NamesRelations(ts, named)
    ensures Reader(named)(CombinedFilter(WrittenObjects(ts, objects))) == Some(CanonicalObjects(ts, named, objects))
  {
    hide AllPlainFields, NamesRelations, WrittenObjects, ReadObjects, CanonicalObjects, Expect, Join;
    var inner := Join(WrittenObjects(ts, objects), ", ");
    if objects == [] {
      NothingWritten(ts, named, objects);
      assert inner + " ] }" == " ] }";
    } else {
      ObjectsAreRead(ts, named, objects, " ] }");
      SomethingWritten(ts, objects, " ] }");
    }
    ExpectPrefix("{ \"$or\": [ ", inner + " ] }");
    assert "{ \"$or\": [ " + inner + " ] }" == "{ \"$or\": [ " + (inner + " ] }");
  }
}
