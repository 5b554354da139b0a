/** The executor's view of the generated filters: a reader of JSON objects of comparisons. It is written from the
    language of these filters and knows nothing of the translator. */
module FilterReader {
  import opened Results
  import opened QueryAst
  import opened MongoTranslator
  import opened MongoMeaning
  import opened JsonText

  /** What follows the prefix. */
  function Expect(prefix: string, s: string): (r: Option<string>)
    ensures r.Some? ==> |r.value| + |prefix| == |s|
  {
    if prefix <= s then Some(s[|prefix|..]) else None
  }

  predicate IsNumberChar(c: char) {
    c in "0123456789+-.eE"
  }

  function NumberRun(s: string): (n: nat)
    ensures n <= |s|
  {
    if s == "" || !IsNumberChar(s[0]) then 0 else 1 + NumberRun(s[1..])
  }

  /** A string after its opening quote. */
  function ReadText(s: string): (r: Option<(string, string)>)
    ensures r.Some? ==> |r.value.1| < |s|
  {
    if ReadString(s).Some? then
      ReadStringShrinks(s);
      ReadString(s)
    else None
  }

  /** A string or a number. */
  function ReadValue(s: string): (r: Option<(Constant, string)>)
    ensures r.Some? ==> |r.value.1| < |s|
  {
    if s == "" then None
    else if s[0] == '"' then
      match ReadText(s[1..])
      case None => None
      case Some((value, rest)) => Some((Constant(value, false), rest))
    else if NumberRun(s) == 0 then None
    else Some((Constant(s[..NumberRun(s)], true), s[NumberRun(s)..]))
  }

  /** An operator and a constant, as in `{ "$lt": 5 }`, or a constant alone. */
  function ReadRelation(s: string): (r: Option<(string, Constant, string)>)
    ensures r.Some? ==> |r.value.2| < |s|
  {
    match Expect("{ \"", s)
    case None =>
      (match ReadValue(s)
       case None => None
       case Some((c, rest)) => Some(("", c, rest)))
    case Some(inner) =>
      match ReadText(inner)
      case None => None
      case Some((mark, afterMark)) =>
        match Expect(": ", afterMark)
        case None => None
        case Some(valueText) =>
          match ReadValue(valueText)
          case None => None
          case Some((c, closing)) =>
            match Expect(" }", closing)
            case None => None
            case Some(rest) => Some((mark, c, rest))
  }

  /** A path and what it is compared with. */
  function ReadMember(named: map<string, string>, s: string): (r: Option<(Field, string)>)
    ensures r.Some? ==> |r.value.1| < |s|
  {
    match Expect("\"", s)
    case None => None
    case Some(inner) =>
      match ReadText(inner)
      case None => None
      case Some((key, afterKey)) =>
        match Expect(": ", afterKey)
        case None => None
        case Some(relation) =>
          match ReadRelation(relation)
          case None => None
          case Some((mark, c, rest)) =>
            if mark in named then Some((Field(key, named[mark], c), rest)) else None
  }

  /** Members between commas, up to a closing brace. */
  function ReadMembers(named: map<string, string>, s: string): (r: Option<(seq<Field>, string)>)
    ensures r.Some? ==> |r.value.1| < |s|
    decreases |s|
  {
    match ReadMember(named, s)
    case None => None
    case Some((field, after)) =>
      match Expect(", ", after)
      case Some(next) =>
        (match ReadMembers(named, next)
         case None => None
         case Some((more, rest)) => Some(([field] + more, rest)))
      case None =>
        match Expect("}", after)
        case None => None
        case Some(rest) => Some(([field], rest))
  }

  /** Objects between commas. */
  function ReadObjects(named: map<string, string>, s: string): Option<(seq<seq<Field>>, string)>
    decreases |s|
  {
    match Expect("{", s)
    case None => None
    case Some(inner) =>
      match ReadMembers(named, inner)
      case None => None
      case Some((members, after)) =>
        match Expect(", ", after)
        case None => Some(([members], after))
        case Some(next) =>
          match ReadObjects(named, next)
          case None => None
          case Some((more, rest)) => Some(([members] + more, rest))
  }

  /** Reads a filter; `named` says which operator a relation stands for. */
  function Reader(named: map<string, string>): string -> Option<seq<seq<Field>>> {
    (text: string) =>
      match Expect("{ \"$or\": [ ", text)
      case None => None
      case Some(inner) =>
        if inner == " ] }" then Some([])
        else
          match ReadObjects(named, inner)
          case None => None
          case Some((objects, rest)) => if rest == " ] }" then Some(objects) else None
  }

  // ---------------------------------------------------------------- constants

  predicate NumberText(s: string) {
    s != "" && forall i :: 0 <= i < |s| ==> IsNumberChar(s[i])
  }

  /** A constant that stands for itself in a filter. */
  predicate PlainConstant(c: Constant) {
    if c.isNumeric then NumberText(c.value) else PlainText(c.value)
  }

  lemma ExpectPrefix(prefix: string, rest: string)
    ensures Expect(prefix, prefix + rest) == Some(rest)
  {
  }

  lemma ExpectOther(prefix: string, s: string)
    requires prefix != "" && (s == "" || s[0] != prefix[0])
    ensures Expect(prefix, s) == None
  {
  }

  lemma {:induction false} NumberRunOf(number: string, rest: string)
    requires forall i :: 0 <= i < |number| ==> IsNumberChar(number[i])
    requires rest == "" || !IsNumberChar(rest[0])
    ensures NumberRun(number + rest) == |number|
  {
    if number == "" {
      assert number + rest == rest;
    } else {
      assert (number + rest)[1..] == number[1..] + rest;
      NumberRunOf(number[1..], rest);
    }
  }

  lemma TextIsRead(value: string, rest: string)
    requires PlainText(value)
    ensures ReadText(value + "\"" + rest) == Some((value, rest))
  {
    PlainReadsBack(value, rest);
  }

  /** A number stands in a filter as it is, so it is no string; a text stands between quotes, and is read back as
      itself exactly when it needs no escape. So a number and a text are never written alike. */
  lemma ConstantIsWritten(c: Constant)
    ensures c.isNumeric ==> ConstantText(c) == c.value
    ensures !c.isNumeric ==>
              && |ConstantText(c)| == |c.value| + 2 && ConstantText(c)[0] == '"'
              && (ReadString(ConstantText(c)[1..]) == Some((c.value, "")) <==> PlainText(c.value))
  {
    if !c.isNumeric {
      QuotedReadsBackExactly(c.value, "");
      assert ConstantText(c)[1..] == c.value + "\"" + "";
    }
  }

  /** A plain constant is read back from a filter as itself. */
  lemma ConstantIsRead(c: Constant, rest: string)
    requires PlainConstant(c) && rest != "" && !IsNumberChar(rest[0])
    ensures ReadValue(ConstantText(c) + rest) == Some((c, rest))
    ensures ConstantText(c) + rest != "" && (ConstantText(c) + rest)[0] != '{'
  {
    ConstantIsWritten(c);
    var s := ConstantText(c) + rest;
    if c.isNumeric {
      NumberRunOf(c.value, rest);
      assert s[..|c.value|] == c.value && s[|c.value|..] == rest;
      assert s[0] == c.value[0] && IsNumberChar(s[0]);
    } else {
      TextIsRead(c.value, rest);
      assert s[1..] == c.value + "\"" + rest by {
        assert ConstantText(c) == "\"" + c.value + "\"";
      }
    }
  }

  // ---------------------------------------------------------------- members and objects

  /** How a member is written: a path, a relation that is left out for equality, and a constant. */
  function RelationText(mark: string, c: Constant): string {
    if mark == "" then ConstantText(c) else "{ \"" + mark + "\": " + ConstantText(c) + " }"
  }

  function MemberText(mark: string, f: Field): string {
    "\"" + f.key + "\": " + RelationText(mark, f.constant)
  }

  lemma RelationIsRead(mark: string, c: Constant, rest: string)
    requires PlainText(mark) && PlainConstant(c) && rest != "" && !IsNumberChar(rest[0])
    ensures ReadRelation(RelationText(mark, c) + rest) == Some((mark, c, rest))
  {
    hide ReadValue, ReadText, ConstantText, PlainText, PlainConstant, Expect, IsNumberChar;
    if mark == "" {
      ConstantIsRead(c, rest);
      ExpectOther("{ \"", ConstantText(c) + rest);
    } else {
      var closing := " }" + rest;
      var value := ConstantText(c) + closing;
      var afterMark := ": " + value;
      assert !IsNumberChar(closing[0]) by { SpaceIsNoNumber(); }
      ConstantIsRead(c, closing);
      ExpectPrefix(" }", rest);
      ExpectPrefix(": ", value);
      TextIsRead(mark, afterMark);
      ExpectPrefix("{ \"", mark + "\"" + afterMark);
      RelationParts(mark, ConstantText(c), rest);
    }
  }

  lemma SpaceIsNoNumber()
    ensures !IsNumberChar(' ') && !IsNumberChar(',') && !IsNumberChar('}')
  {
  }

  lemma RelationParts(mark: string, constant: string, rest: string)
    ensures "{ \"" + mark + "\": " + constant + " }" + rest ==
            "{ \"" + (mark + "\"" + (": " + (constant + (" }" + rest))))
  {
    assert "\": " == "\"" + ": ";
  }

  lemma MemberIsRead(named: map<string, string>, mark: string, f: Field, rest: string)
    requires PlainText(f.key) && PlainText(mark) && PlainConstant(f.constant) && mark in named
    requires rest != "" && !IsNumberChar(rest[0])
    ensures ReadMember(named, MemberText(mark, f) + rest) == Some((Field(f.key, named[mark], f.constant), rest))
  {
    hide ReadRelation, RelationText, ReadText, PlainText, PlainConstant, Expect, IsNumberChar;
    var relation := RelationText(mark, f.constant) + rest;
    RelationIsRead(mark, f.constant, rest);
    ExpectPrefix(": ", relation);
    TextIsRead(f.key, ": " + relation);
    ExpectPrefix("\"", f.key + "\"" + (": " + relation));
    MemberParts(f.key, RelationText(mark, f.constant), rest);
  }

  lemma MemberParts(key: string, relation: string, rest: string)
    ensures "\"" + key + "\": " + relation + rest == "\"" + (key + "\"" + (": " + (relation + rest)))
  {
    assert "\": " == "\"" + ": ";
  }
}
