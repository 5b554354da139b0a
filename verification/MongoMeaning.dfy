/** What MongoDB filters mean, and when they mean the conditions they were made from. Conditions are
    conjunctions of comparisons of an attribute with a constant or another attribute; documents have one
    value per path. */
module MongoMeaning {
  import opened Tokens
  import opened QueryAst
  import opened Meaning
  import opened Templates
  import opened MongoTranslator
  import opened MongoRefinement
  import opened MongoMarkers
  import opened MongoDirect

  // ---------------------------------------------------------------- the structure of a filter

  predicate Comparison(o: Operand) {
    && o.Call? && |o.args| == 2
    && (o.args[0].Attribute? || (o.args[0].Const? && o.args[1].Attribute?))
    && (o.args[1].Attribute? || o.args[1].Const?)
  }

  predicate AllComparisons(os: seq<Operand>) {
    forall i :: 0 <= i < |os| ==> Comparison(os[i])
  }

  /** The constant is written first. */
  predicate Reversed(o: Operand)
    requires Comparison(o)
  {
    o.args[0].Const?
  }

  /** Two attributes are compared. */
  predicate Crossed(o: Operand)
    requires Comparison(o)
  {
    o.args[0].Attribute? && o.args[1].Attribute?
  }

  function KeyOf(path: string -> string, o: Operand): string
    requires o.Attribute?
  {
    path(o.entity) + o.name
  }

  /** One member of a filter object: the value at the path must be related to the constant. */
  datatype Field = Field(key: string, op: string, constant: Constant)

  /** The attribute becomes the key. A second attribute becomes a constant, the text of its path. */
  function FieldOf(path: string -> string, o: Operand): Field
    requires Comparison(o)
  {
    if Reversed(o) then Field(KeyOf(path, o.args[1]), o.op, o.args[0].c)
    else if Crossed(o) then Field(KeyOf(path, o.args[0]), o.op, Constant(KeyOf(path, o.args[1]), false))
    else Field(KeyOf(path, o.args[0]), o.op, o.args[1].c)
  }

  function FieldsOf(path: string -> string, os: seq<Operand>): (r: seq<Field>)
    requires AllComparisons(os)
    ensures |r| == |os|
    ensures forall i :: 0 <= i < |os| ==> r[i] == FieldOf(path, os[i])
  {
    seq(|os|, i requires 0 <= i < |os| => FieldOf(path, os[i]))
  }

  /** Comparison operators take two operands. */
  predicate BinaryTemplates(ts: TemplateTable, os: seq<Operand>) {
    forall i :: 0 <= i < |os| ==> os[i].Call? && os[i].op in ts && ts[os[i].op].argsCount == 2
  }

  function FieldText(t: Template, f: Field): string
    requires WellFormed(t) && t.argsCount == 2
  {
    Substitute(Pieces(t.mapping), (c: char) => c, ["\"" + f.key + "\"", ConstantText(f.constant)])
  }

  function FieldTexts(ts: TemplateTable, fields: seq<Field>): (r: seq<string>)
    requires SafeTemplates(ts)
    requires forall i :: 0 <= i < |fields| ==> fields[i].op in ts && ts[fields[i].op].argsCount == 2
    ensures |r| == |fields|
    ensures forall i :: 0 <= i < |fields| ==> r[i] == FieldText(ts[fields[i].op], fields[i])
  {
    seq(|fields|, i requires 0 <= i < |fields| => FieldText(ts[fields[i].op], fields[i]))
  }

  lemma ConstantNamesNothing(ts: TemplateTable, o: Operand)
    requires SafeTemplates(ts) && o.Const?
    ensures Fits(ts, o) && !NamesEntity(ts, o)
  {
    GapsChars<string>(ConstantText(o.c));
  }

  lemma AttributeNamesEntity(ts: TemplateTable, o: Operand)
    requires SafeTemplates(ts) && o.Attribute?
    ensures Fits(ts, o) && NamesEntity(ts, o)
  {
  }

  lemma DirectAttribute(ts: TemplateTable, path: string -> string, o: Operand)
    requires SafeTemplates(ts) && o.Attribute?
    ensures Fits(ts, o) && DirectOperand(ts, path, o) == "\"" + KeyOf(path, o) + "\""
  {
    assert "\"" + path(o.entity) + o.name == "\"" + KeyOf(path, o);
  }

  /** The attribute always comes first in the text of a comparison. */
  lemma ComparisonPrints(ts: TemplateTable, path: string -> string, o: Operand)
    requires SafeTemplates(ts) && Comparison(o) && o.op in ts && ts[o.op].argsCount == 2
    ensures Fits(ts, o) && DirectOperand(ts, path, o) == FieldText(ts[o.op], FieldOf(path, o))
  {
    hide NamesEntity, Pieces;
    var a, b := o.args[0], o.args[1];
    assert o.args == [a, b] && o.args[1..] == [b];
    assert Fits(ts, a) && Fits(ts, b) && AllFit(ts, [b]) && AllFit(ts, o.args[1..]);
    assert AllFit(ts, o.args);
    if a.Attribute? {
      AttributeNamesEntity(ts, a);
    } else {
      ConstantNamesNothing(ts, a);
    }
    var texts := DirectOperands(ts, path, o.args);
    var first, second := DirectOperand(ts, path, a), DirectOperand(ts, path, b);
    assert texts == [first, second] by {
      assert DirectOperands(ts, path, [b]) == [second];
    }
    var ordered := if NamesEntity(ts, a) then texts else [second, first];
    var f := FieldOf(path, o);
    DirectAttribute(ts, path, if a.Attribute? then a else b);
    if Crossed(o) {
      DirectAttribute(ts, path, b);
    }
    assert ordered == ["\"" + f.key + "\"", ConstantText(f.constant)];
    assert ordered[..2] == ordered;
    var substituted := Substitute(Pieces(ts[o.op].mapping), (c: char) => c, ordered);
    assert substituted + "" == substituted;
  }

  lemma {:induction false} DirectEach(ts: TemplateTable, path: string -> string, os: seq<Operand>)
    requires SafeTemplates(ts) && forall i :: 0 <= i < |os| ==> Fits(ts, os[i])
    ensures AllFit(ts, os)
    ensures forall i :: 0 <= i < |os| ==> DirectOperands(ts, path, os)[i] == DirectOperand(ts, path, os[i])
    decreases |os|
  {
    hide Fits, DirectOperand, SafeTemplates;
    if os != [] {
      assert forall i :: 0 <= i < |os[1..]| ==> os[1..][i] == os[i + 1];
      DirectEach(ts, path, os[1..]);
    }
  }

  lemma ComparisonsPrint(ts: TemplateTable, path: string -> string, os: seq<Operand>)
    requires SafeTemplates(ts) && AllComparisons(os) && BinaryTemplates(ts, os)
    ensures AllFit(ts, os) && DirectOperands(ts, path, os) == FieldTexts(ts, FieldsOf(path, os))
  {
    hide FieldText, DirectOperand, Fits, AllFit, DirectOperands, HolesBelow, SafePieces;
    forall i | 0 <= i < |os|
      ensures Fits(ts, os[i]) && DirectOperand(ts, path, os[i]) == FieldText(ts[os[i].op], FieldOf(path, os[i]))
    {
      ComparisonPrints(ts, path, os[i]);
    }
    DirectEach(ts, path, os);
  }

  /** The filter of a query is the printed list of its fields. */
  lemma FilterIsPrintedFields(ts: TemplateTable, path: string -> string, q: Query)
    requires SafeTemplates(ts) && AllComparisons(q.clauses) && BinaryTemplates(ts, q.clauses)
    ensures AllFit(ts, q.clauses)
    ensures DirectFilter(ts, path, q) == FilterText(FieldTexts(ts, FieldsOf(path, q.clauses)))
  {
    ComparisonsPrint(ts, path, q.clauses);
  }

  // ---------------------------------------------------------------- meaning

  type Document = string -> Value

  datatype Reading = Reading(constant: Constant -> Value, relates: (string, Value, Value) -> bool)

  /** Decoding a JSON object: a later member replaces an earlier one with the same key. */
  function ObjectOf(fields: seq<Field>): map<string, Field> {
    if fields == [] then map[]
    else
      var last := fields[|fields| - 1];
      ObjectOf(fields[..|fields| - 1])[last.key := last]
  }

  predicate FieldHolds(r: Reading, doc: Document, f: Field) {
    r.relates(f.op, doc(f.key), r.constant(f.constant))
  }

  predicate ObjectMatches(r: Reading, doc: Document, fields: seq<Field>) {
    forall key :: key in ObjectOf(fields) ==> FieldHolds(r, doc, ObjectOf(fields)[key])
  }

  function ComparandValue(r: Reading, doc: Document, path: string -> string, o: Operand): Value {
    match o
    case Attribute(_, _) => doc(KeyOf(path, o))
    case Const(c) => r.constant(c)
    case Call(_, _) => Undefined
  }

  /** The comparison with its operands as they were written. */
  predicate ConditionHolds(r: Reading, doc: Document, path: string -> string, o: Operand)
    requires Comparison(o)
  {
    r.relates(o.op, ComparandValue(r, doc, path, o.args[0]), ComparandValue(r, doc, path, o.args[1]))
  }

  predicate ConditionsHold(r: Reading, doc: Document, path: string -> string, os: seq<Operand>)
    requires AllComparisons(os)
  {
    forall i :: 0 <= i < |os| ==> ConditionHolds(r, doc, path, os[i])
  }

  ghost predicate Symmetric(r: Reading, ops: set<string>) {
    forall op, x, y :: op in ops ==> r.relates(op, x, y) == r.relates(op, y, x)
  }

  /** The filter matches the documents that satisfy the conditions, for every reading in which the given
      operators are symmetric. */
  ghost predicate KeepsMeaning(symmetric: set<string>, path: string -> string, os: seq<Operand>)
    requires AllComparisons(os)
  {
    forall r, doc :: Symmetric(r, symmetric) ==>
      (ObjectMatches(r, doc, FieldsOf(path, os)) <==> ConditionsHold(r, doc, path, os))
  }

  /** Only symmetric operators have the constant first. */
  predicate ReversedAreSymmetric(symmetric: set<string>, os: seq<Operand>)
    requires AllComparisons(os)
  {
    forall i :: 0 <= i < |os| && Reversed(os[i]) ==> os[i].op in symmetric
  }

  /** No two attributes are compared. */
  predicate NoneCrossed(os: seq<Operand>)
    requires AllComparisons(os)
  {
    forall i :: 0 <= i < |os| ==> !Crossed(os[i])
  }

  /** No path is compared in two different ways. */
  predicate RepeatedKeysAgree(fields: seq<Field>) {
    forall i, j :: 0 <= i < |fields| && 0 <= j < |fields| && fields[i].key == fields[j].key ==> fields[i] == fields[j]
  }

  /** What the translator silently relies on. */
  predicate Unambiguous(symmetric: set<string>, path: string -> string, os: seq<Operand>)
    requires AllComparisons(os)
  {
    NoneCrossed(os) && ReversedAreSymmetric(symmetric, os) && RepeatedKeysAgree(FieldsOf(path, os))
  }

  lemma {:induction false} ObjectMembers(fields: seq<Field>, key: string)
    ensures key in ObjectOf(fields) ==> ObjectOf(fields)[key] in fields && ObjectOf(fields)[key].key == key
    ensures key !in ObjectOf(fields) ==> forall i :: 0 <= i < |fields| ==> fields[i].key != key
  {
    if fields != [] {
      var n := |fields| - 1;
      ObjectMembers(fields[..n], key);
      assert forall i :: 0 <= i < n ==> fields[i] == fields[..n][i];
    }
  }

  lemma AgreeingObjectMatches(r: Reading, doc: Document, fields: seq<Field>)
    requires RepeatedKeysAgree(fields)
    ensures ObjectMatches(r, doc, fields) <==> forall i :: 0 <= i < |fields| ==> FieldHolds(r, doc, fields[i])
  {
    forall i | 0 <= i < |fields|
      ensures fields[i].key in ObjectOf(fields) && ObjectOf(fields)[fields[i].key] == fields[i]
    {
      ObjectMembers(fields, fields[i].key);
    }
    forall key | key in ObjectOf(fields) ensures ObjectOf(fields)[key] in fields {
      ObjectMembers(fields, key);
    }
  }

  lemma KeptWhenUnambiguous(symmetric: set<string>, path: string -> string, os: seq<Operand>, r: Reading, doc: Document)
    requires AllComparisons(os) && Unambiguous(symmetric, path, os)
    requires Symmetric(r, symmetric)
    ensures ObjectMatches(r, doc, FieldsOf(path, os)) <==> ConditionsHold(r, doc, path, os)
  {
    hide ObjectMatches, RepeatedKeysAgree;
    var fields := FieldsOf(path, os);
    AgreeingObjectMatches(r, doc, fields);
    assert forall i :: 0 <= i < |os| ==> (FieldHolds(r, doc, fields[i]) <==> ConditionHolds(r, doc, path, os[i]));
  }

  // ---------------------------------------------------------------- where the meaning is lost

  /** A reading and a document that keep all constants and all paths apart. */
  function ConstantValue(c: Constant): Value {
    Text((if c.isNumeric then "n" else "s") + c.value)
  }

  function PathValue(key: string): Value {
    Text("k" + key)
  }

  lemma ValuesApart(c: Constant, d: Constant, key: string, other: string)
    ensures ConstantValue(c) != PathValue(key)
    ensures ConstantValue(c) == ConstantValue(d) ==> c == d
    ensures PathValue(key) == PathValue(other) ==> key == other
  {
    var s, t := (if c.isNumeric then "n" else "s") + c.value, (if d.isNumeric then "n" else "s") + d.value;
    assert s[0] != 'k' && s[1..] == c.value && t[1..] == d.value;
    assert ("k" + key)[0] == 'k' && ("k" + key)[1..] == key && ("k" + other)[1..] == other;
  }

  /** Everything is related, except a field in either direction. */
  function AllBut(f: Field): Reading {
    Reading(ConstantValue, (op: string, x: Value, y: Value) =>
      !(op == f.op && (   (x == PathValue(f.key) && y == ConstantValue(f.constant))
                       || (x == ConstantValue(f.constant) && y == PathValue(f.key)))))
  }

  /** Everything is related, except a constant to a path, in this order. */
  function AllButReversed(f: Field): Reading {
    Reading(ConstantValue, (op: string, x: Value, y: Value) =>
      !(op == f.op && x == ConstantValue(f.constant) && y == PathValue(f.key)))
  }

  /** Everything is related, except two paths. */
  function AllButPaths(op0: string, key: string, other: string): Reading {
    Reading(ConstantValue, (op: string, x: Value, y: Value) =>
      !(op == op0 && (   (x == PathValue(key) && y == PathValue(other))
                      || (x == PathValue(other) && y == PathValue(key)))))
  }

  lemma CrossedTellsApart(symmetric: set<string>, path: string -> string, os: seq<Operand>, i: nat)
    requires AllComparisons(os) && i < |os| && Crossed(os[i])
    ensures !KeepsMeaning(symmetric, path, os)
  {
    var fields := FieldsOf(path, os);
    var key, other := KeyOf(path, os[i].args[0]), KeyOf(path, os[i].args[1]);
    var r := AllButPaths(os[i].op, key, other);
    assert Symmetric(r, symmetric);
    assert !ConditionHolds(r, PathValue, path, os[i]);
    hide ObjectOf, ConditionHolds, Symmetric, FieldOf;
    forall k | k in ObjectOf(fields) ensures FieldHolds(r, PathValue, ObjectOf(fields)[k]) {
      var c := ObjectOf(fields)[k].constant;
      ValuesApart(c, c, key, other);
      ValuesApart(c, c, other, key);
    }
    assert ObjectMatches(r, PathValue, fields) && !ConditionsHold(r, PathValue, path, os);
  }

  lemma ReversedTellsApart(symmetric: set<string>, path: string -> string, os: seq<Operand>, i: nat)
    requires AllComparisons(os) && i < |os| && Reversed(os[i]) && os[i].op !in symmetric
    ensures !KeepsMeaning(symmetric, path, os)
  {
    var f, fields := FieldOf(path, os[i]), FieldsOf(path, os);
    var r := AllButReversed(f);
    assert !ConditionHolds(r, PathValue, path, os[i]);
    forall key | key in ObjectOf(fields) ensures FieldHolds(r, PathValue, ObjectOf(fields)[key]) {
      ValuesApart(f.constant, f.constant, ObjectOf(fields)[key].key, f.key);
    }
    hide ObjectOf, FieldHolds, ConditionHolds;
    assert Symmetric(r, symmetric) && ObjectMatches(r, PathValue, fields) && !ConditionsHold(r, PathValue, path, os);
  }

  lemma OtherFieldsRelate(f: Field, g: Field)
    ensures FieldHolds(AllBut(f), PathValue, g) <==> f != g
  {
    ValuesApart(f.constant, g.constant, g.key, f.key);
  }

  /** A field that the object does not have under its key can be missed. */
  lemma DroppedTellsApart(symmetric: set<string>, path: string -> string, os: seq<Operand>, i: nat)
    requires AllComparisons(os) && i < |os| && !Crossed(os[i])
    requires var f := FieldOf(path, os[i]);
             f.key in ObjectOf(FieldsOf(path, os)) ==> ObjectOf(FieldsOf(path, os))[f.key] != f
    ensures !KeepsMeaning(symmetric, path, os)
  {
    var f, fields := FieldOf(path, os[i]), FieldsOf(path, os);
    var r := AllBut(f);
    assert Symmetric(r, symmetric);
    assert !ConditionHolds(r, PathValue, path, os[i]);
    hide ObjectOf, FieldHolds, ConditionHolds, AllBut, Symmetric, FieldOf;
    forall key | key in ObjectOf(fields) ensures FieldHolds(r, PathValue, ObjectOf(fields)[key]) {
      ObjectMembers(fields, key);
      OtherFieldsRelate(f, ObjectOf(fields)[key]);
    }
    assert ObjectMatches(r, PathValue, fields) && !ConditionsHold(r, PathValue, path, os);
  }

  lemma AgreementOfObject(fields: seq<Field>)
    requires forall i :: 0 <= i < |fields| ==>
               fields[i].key in ObjectOf(fields) && ObjectOf(fields)[fields[i].key] == fields[i]
    ensures RepeatedKeysAgree(fields)
  {
  }

  /** A filter keeps the meaning of its conditions exactly when no two attributes are compared, every
      condition with the constant first uses a symmetric operator, and no path is compared in two different
      ways. */
  lemma FilterKeepsMeaningExactly(symmetric: set<string>, path: string -> string, os: seq<Operand>)
    requires AllComparisons(os)
    ensures KeepsMeaning(symmetric, path, os) <==> Unambiguous(symmetric, path, os)
  {
    hide FieldOf, ObjectOf, Symmetric, ObjectMatches, ConditionsHold, RepeatedKeysAgree;
    var fields := FieldsOf(path, os);
    if !NoneCrossed(os) {
      var i :| 0 <= i < |os| && Crossed(os[i]);
      CrossedTellsApart(symmetric, path, os, i);
    } else if !ReversedAreSymmetric(symmetric, os) {
      var i :| 0 <= i < |os| && Reversed(os[i]) && os[i].op !in symmetric;
      ReversedTellsApart(symmetric, path, os, i);
    } else if !RepeatedKeysAgree(fields) {
      if forall i :: 0 <= i < |fields| ==>
           fields[i].key in ObjectOf(fields) && ObjectOf(fields)[fields[i].key] == fields[i] {
        AgreementOfObject(fields);
      } else {
        var i :| 0 <= i < |fields| && !(fields[i].key in ObjectOf(fields)
                                        && ObjectOf(fields)[fields[i].key] == fields[i]);
        DroppedTellsApart(symmetric, path, os, i);
      }
    } else {
      forall r, doc | Symmetric(r, symmetric)
        ensures ObjectMatches(r, doc, fields) <==> ConditionsHold(r, doc, path, os)
      {
        KeptWhenUnambiguous(symmetric, path, os, r, doc);
      }
    }
  }
}
