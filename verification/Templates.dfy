/** Call operands (internal/pkg/data/operands.go): a template such as "$0 = $1" is
    compiled once into a fmt format string and an index list, and is then applied
    to the operands of every call. */
module Templates {
  import opened Results
  import opened Tokens

  datatype CallError =
    | WrongArgumentCount
    | IndexOutOfRange
    | NumberOutOfRange
    | DirectiveNotModelled

  // ---------------------------------------------------------------- parsing

  /** A template read as literal characters and `$i` placeholders. */
  datatype Piece = Lit(c: char) | Hole(digits: string)

  predicate IsDigit(c: char) {
    '0' <= c <= '9'
  }

  function DigitRun(s: string): (n: nat)
    ensures n <= |s|
  {
    if s == "" || !IsDigit(s[0]) then 0 else 1 + DigitRun(s[1..])
  }

  /** The leftmost-longest matches of the regular expression `\$\d+`. */
  function Pieces(s: string): seq<Piece>
    decreases |s|
  {
    if s == "" then []
    else if s[0] == '$' && DigitRun(s[1..]) > 0 then
      var n := 1 + DigitRun(s[1..]);
      [Hole(s[1..n])] + Pieces(s[n..])
    else [Lit(s[0])] + Pieces(s[1..])
  }

  /** regexp.FindAllString, with the leading `$` already cut off. */
  function FoundDigits(ps: seq<Piece>): seq<string> {
    if ps == [] then []
    else (match ps[0] case Lit(_) => [] case Hole(d) => [d]) + FoundDigits(ps[1..])
  }

  /** regexp.ReplaceAllString with replacement "%s". */
  function Format(ps: seq<Piece>): string {
    if ps == [] then ""
    else (match ps[0] case Lit(c) => [c] case Hole(_) => "%s") + Format(ps[1..])
  }

  function Decimal(digits: string): nat {
    if digits == "" then 0
    else
      var last := digits[|digits| - 1];
      10 * Decimal(digits[..|digits| - 1]) + (if IsDigit(last) then last as nat - '0' as nat else 0)
  }

  const MAX_INT := 0x7FFF_FFFF_FFFF_FFFF

  /** strconv.Atoi on a run of digits. */
  function Atoi(digits: string): Result<nat, CallError> {
    if Decimal(digits) <= MAX_INT then Ok(Decimal(digits)) else Err(NumberOutOfRange)
  }

  /** The placeholder numbers in reading order. */
  function Holes(ps: seq<Piece>): seq<nat> {
    if ps == [] then []
    else (match ps[0] case Lit(_) => [] case Hole(d) => [Decimal(d)]) + Holes(ps[1..])
  }

  lemma {:induction false} HolesAreDecimals(ps: seq<Piece>)
    ensures |Holes(ps)| == |FoundDigits(ps)|
    ensures forall i :: 0 <= i < |Holes(ps)| ==> Holes(ps)[i] == Decimal(FoundDigits(ps)[i])
  {
    if ps != [] {
      HolesAreDecimals(ps[1..]);
    }
  }

  // ---------------------------------------------------------------- fmt.Sprintf

  /** fmt.Sprintf on string operands: `%s`, `%%`, flags, missing and extra operands.
      Every other directive is outside the model. */
  function Sprintf(format: string, args: seq<string>): Result<string, CallError>
    decreases |format|
  {
    if format == "" then Ok(ExtraOperands(args))
    else if format[0] != '%' then
      var rest :- Sprintf(format[1..], args);
      Ok([format[0]] + rest)
    else
      var n := 1 + FlagRun(format[1..]);
      if n == |format| then Ok("%!(NOVERB)" + ExtraOperands(args))
      else if format[n] == '%' then
        var rest :- Sprintf(format[n + 1..], args);
        Ok("%" + rest)
      else if format[n] == 's' && args == [] then
        var rest :- Sprintf(format[n + 1..], []);
        Ok("%!s(MISSING)" + rest)
      else if format[n] == 's' then
        var rest :- Sprintf(format[n + 1..], args[1..]);
        Ok(args[0] + rest)
      else Err(DirectiveNotModelled)
  }

  function FlagRun(s: string): (n: nat)
    ensures n <= |s|
  {
    if s == "" || s[0] !in "+-# 0" then 0 else 1 + FlagRun(s[1..])
  }

  function ExtraOperands(args: seq<string>): string {
    if args == [] then ""
    else "%!(EXTRA " + Join(seq(|args|, i requires 0 <= i < |args| => "string=" + args[i]), ", ") + ")"
  }

  // ---------------------------------------------------------------- the handler

  /** The operands in template order; operands without a placeholder keep their place. */
  function Rearrange(indexMapping: seq<nat>, args: seq<string>): (r: seq<string>)
    requires forall i :: 0 <= i < |args| && i < |indexMapping| ==> indexMapping[i] < |args|
    ensures |r| == |args|
    ensures forall i :: 0 <= i < |r| ==> r[i] == if i < |indexMapping| then args[indexMapping[i]] else args[i]
  {
    seq(|args|, i requires 0 <= i < |args| => if i < |indexMapping| then args[indexMapping[i]] else args[i])
  }

  /** What Map does with a compiled template. */
  function MapCompiled(argsCount: nat, indexMapping: seq<nat>, format: string, args: seq<string>):
    Result<string, CallError>
  {
    if |args| < argsCount || |args| > argsCount + 1 then Err(WrongArgumentCount)
    else if exists i :: 0 <= i < |args| && i < |indexMapping| && indexMapping[i] >= |args| then Err(IndexOutOfRange)
    else
      Sprintf(if |args| > argsCount then format + " = %s" else format, Rearrange(indexMapping, args))
  }

  class LoadedCallHandler {
    const argsCount: nat
    const mapping: string
    var targetMapping: string
    var indexMapping: seq<nat>

    constructor (argsCount: nat, mapping: string)
      ensures this.argsCount == argsCount && this.mapping == mapping
    {
      this.argsCount := argsCount;
      this.mapping := mapping;
      targetMapping, indexMapping := "", [];
    }

    predicate Initialised()
      reads this
    {
      indexMapping == Holes(Pieces(mapping)) && targetMapping == Format(Pieces(mapping))
    }

    method Init() returns (r: Result<(), CallError>)
      modifies this
      ensures r.Ok? <==> forall i :: 0 <= i < |FoundDigits(Pieces(mapping))| ==>
                                       Decimal(FoundDigits(Pieces(mapping))[i]) < 0x8000_0000_0000_0000
      ensures r.Ok? ==> Initialised()
    {
      indexMapping := [];
      var extractedArgs := FoundDigits(Pieces(mapping));
      for k := 0 to |extractedArgs|
        invariant |indexMapping| == k
        invariant forall i :: 0 <= i < k ==> indexMapping[i] == Decimal(extractedArgs[i]) <= MAX_INT
      {
        var num := Atoi(extractedArgs[k]);
        if num.Err? {
          assert Decimal(FoundDigits(Pieces(mapping))[k]) > MAX_INT;
          return Err(num.error);
        }
        indexMapping := indexMapping + [num.value];
      }
      HolesAreDecimals(Pieces(mapping));
      targetMapping := Format(Pieces(mapping));
      return Ok(());
    }

    method Map(args: seq<string>) returns (r: Result<string, CallError>)
      requires Initialised()
      ensures r == MapTemplate(Template(argsCount, mapping), args)
    {
      if |args| < argsCount || |args| > argsCount + 1 {
        return Err(WrongArgumentCount);
      }
      var operands: seq<string> := [];
      var indices := indexMapping;
      for i := 0 to |args|
        invariant |operands| == i
        invariant forall j :: 0 <= j < i && j < |indices| ==> indices[j] < |args|
        invariant forall j :: 0 <= j < i ==> operands[j] == if j < |indices| then args[indices[j]] else args[j]
      {
        if i < |indices| {
          if indices[i] >= |args| {
            return Err(IndexOutOfRange);
          }
          operands := operands + [args[indices[i]]];
        } else {
          operands := operands + [args[i]];
        }
      }
      assert operands == Rearrange(indices, args);
      r := Sprintf(if |args| > argsCount then targetMapping + " = %s" else targetMapping, operands);
    }
  }

  // ---------------------------------------------------------------- meaning

  /** A call-operand entry of the configuration. */
  datatype Template = Template(argsCount: nat, mapping: string)

  function MapTemplate(t: Template, args: seq<string>): Result<string, CallError> {
    MapCompiled(t.argsCount, Holes(Pieces(t.mapping)), Format(Pieces(t.mapping)), args)
  }

  predicate HolesBelow(ps: seq<Piece>, n: nat) {
    forall i :: 0 <= i < |Holes(ps)| ==> Holes(ps)[i] < n
  }

  /** Simultaneous substitution: every `$i` becomes argument i in one pass, and
      inserted text is never looked at again. */
  function Substitute<T>(ps: seq<Piece>, lit: char -> T, args: seq<seq<T>>): seq<T>
    requires HolesBelow(ps, |args|)
  {
    if ps == [] then []
    else
      assert forall i :: 0 <= i < |Holes(ps[1..])| ==>
        Holes(ps[1..])[i] == Holes(ps)[i + |Holes(ps)| - |Holes(ps[1..])|];
      (match ps[0]
       case Lit(c) => [lit(c)]
       case Hole(d) => assert Decimal(d) == Holes(ps)[0]; args[Decimal(d)])
      + Substitute(ps[1..], lit, args)
  }

  /** What the configuration promises: the substituted template, and for one operand
      too many a comparison of the call with that operand. */
  ghost predicate MapsBySubstitution(t: Template, args: seq<string>) {
    && HolesBelow(Pieces(t.mapping), t.argsCount)
    && t.argsCount <= |args| <= t.argsCount + 1
    && MapTemplate(t, args) == Ok(
      Substitute(Pieces(t.mapping), (c: char) => c, args[..t.argsCount])
      + (if |args| > t.argsCount then " = " + args[t.argsCount] else ""))
  }

  predicate WellFormed(t: Template) {
    |Holes(Pieces(t.mapping))| == t.argsCount && HolesBelow(Pieces(t.mapping), t.argsCount)
  }

  // ---------------------------------------------------------------- tables of templates

  type TemplateTable = map<string, Template>

  type CallOperands = map<string, seq<string> -> Result<string, CallError>>

  function CompiledOperands(templates: TemplateTable): CallOperands {
    map op | op in templates :: (args: seq<string>) => MapTemplate(templates[op], args)
  }

  /** A template that the handler applies by substitution; see TemplateTheorems. */
  predicate SoundTemplate(t: Template) {
    '%' !in t.mapping && WellFormed(t)
  }

  predicate SoundTemplates(templates: TemplateTable) {
    forall op :: op in templates ==> SoundTemplate(templates[op])
  }

  function SoundPart(templates: TemplateTable): (r: TemplateTable)
    ensures SoundTemplates(r)
  {
    map op | op in templates && SoundTemplate(templates[op]) :: templates[op]
  }
}
