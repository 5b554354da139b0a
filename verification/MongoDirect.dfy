/** The translator's MongoDB filters are those that render every attribute with its path in the first
    place: the detour over markers and the regrouping by collection cannot be observed. */
module MongoDirect {
  import opened Results
  import opened Tokens
  import opened QueryAst
  import opened Templates
  import opened TemplateTheorems
  import opened MongoTranslator
  import opened MongoRefinement
  import opened MongoMarkers
  import EntityConfig

  // ---------------------------------------------------------------- what may be translated

  predicate SafeTemplates(ts: TemplateTable) {
    forall op :: op in ts ==> SafeTemplate(ts[op])
  }

  predicate SafeConstant(c: Constant) {
    if c.isNumeric then c.value != "" && '{' !in c.value else !HasPair(c.value, '{')
  }

  /** No name and no constant contains a pair of braces that could be taken for a part of a marker. */
  predicate SafeOperand(o: Operand)
    decreases o, 1
  {
    match o
    case Attribute(entity, name) => SafeEntity(entity) && !HasPair(name, '{')
    case Const(c) => SafeConstant(c)
    case Call(_, args) => AllSafe(args)
  }

  predicate AllSafe(os: seq<Operand>)
    decreases os, 0
  {
    os == [] || (SafeOperand(os[0]) && AllSafe(os[1..]))
  }

  /** Every operator is known and takes the given number of operands. */
  predicate Fits(ts: TemplateTable, o: Operand)
    decreases o, 1
  {
    o.Call? ==> o.op in ts && AcceptsCount(ts[o.op], |o.args|) && AllFit(ts, o.args)
  }

  predicate AllFit(ts: TemplateTable, os: seq<Operand>)
    decreases os, 0
  {
    os == [] || (Fits(ts, os[0]) && AllFit(ts, os[1..]))
  }

  // ---------------------------------------------------------------- operands as marked texts

  function AttributeTokens(entity: string, name: string): MarkedText {
    [Ch('"')] + ([Gap(entity)] + (Chars(name) + [Ch('"')]))
  }

  function TokensOf(ts: TemplateTable, o: Operand): MarkedText
    requires SafeTemplates(ts) && Fits(ts, o)
    decreases o, 1
  {
    match o
    case Attribute(entity, name) => AttributeTokens(entity, name)
    case Const(c) => Chars(ConstantText(c))
    case Call(op, args) => Compose(ts[op], AttributeFirst(AllTokens(ts, args)))
  }

  function AllTokens(ts: TemplateTable, os: seq<Operand>): (r: seq<MarkedText>)
    requires SafeTemplates(ts) && AllFit(ts, os)
    ensures |r| == |os|
    decreases os, 0
  {
    if os == [] then [] else [TokensOf(ts, os[0])] + AllTokens(ts, os[1..])
  }

  function AttributeFirst(args: seq<MarkedText>): (r: seq<MarkedText>)
    ensures |r| == |args|
  {
    if |args| == 2 && Gaps(args[0]) == [] then [args[1], args[0]] else args
  }

  lemma AttributeIsClean(entity: string, name: string)
    requires SafeEntity(entity) && !HasPair(name, '{')
    ensures Clean(AttributeTokens(entity, name)) && Guarded(AttributeTokens(entity, name))
  {
    var quote: MarkedText := [Ch('"')];
    var tail := Chars<string>(name) + quote;
    assert quote[1..] == [] && Clean(quote);
    CleanChars(name);
    CleanAppend(Chars(name), quote);
    var marked := [Gap(entity)] + tail;
    assert marked[1..] == tail && Clean(marked);
    assert (quote + marked)[1..] == marked;
  }

  lemma AttributeFills(fill: string -> string, entity: string, name: string)
    ensures Fill(fill, AttributeTokens(entity, name)) == "\"" + (fill(entity) + (name + "\""))
  {
    var quote: MarkedText := [Ch('"')];
    assert quote[1..] == [] && Fill(fill, quote) == "\"";
    FillAppend(fill, quote, [Gap(entity)] + (Chars(name) + quote));
    FillAppend(fill, [Gap(entity)], Chars(name) + quote);
    FillGap(fill, entity);
    FillAppend(fill, Chars(name), quote);
    FillChars(fill, name);
  }

  lemma ConstantIsClean(c: Constant)
    requires SafeConstant(c)
    ensures Clean(Chars(ConstantText(c))) && Guarded(Chars(ConstantText(c)))
  {
    var text := ConstantText(c);
    assert !HasPair(text, '{') by {
      assert !c.isNumeric ==> forall i :: 0 < i < |text| - 1 ==> text[i] == c.value[i - 1];
    }
    CleanChars(text);
  }

  /** The text of an operand is its marked text with markers in the gaps; the matcher sees exactly the
      gaps. */
  ghost predicate Marked(r: Result<string, MongoError>, text: MarkedText) {
    r == Ok(Fill(Marker(), text)) && Clean(text) && Guarded(text)
  }

  ghost predicate AllMarked(r: Result<seq<string>, MongoError>, texts: seq<MarkedText>) {
    r == Ok(FillEach(Marker(), texts)) && AllGuarded(texts)
  }

  lemma ReorderingSeesGaps(texts: seq<MarkedText>)
    requires AllGuarded(texts)
    ensures Reordered(FillEach(Marker(), texts)) == FillEach(Marker(), AttributeFirst(texts))
    ensures AllGuarded(AttributeFirst(texts))
  {
    if |texts| == 2 {
      assert Clean(texts[0]) && Guarded(texts[0]);
      hide MatchString, Clean, Guarded, Gaps, Fill;
      MatchesIffMarked(texts[0]);
    }
  }

  lemma OperatorApplies(cfg: Config, ts: TemplateTable, op: string, texts: seq<MarkedText>)
    requires cfg.callOps == CompiledOperands(ts) && SafeTemplates(ts) && AllGuarded(texts)
    ensures var r := ApplyOperator(cfg, op, FillEach(Marker(), texts));
            && (r.Ok? <==> op in ts && AcceptsCount(ts[op], |texts|))
            && (r.Ok? ==> Marked(r, Compose(ts[op], texts)))
  {
    hide Compose, AcceptsCount, SafeTemplate;
    if op in ts {
      OnlyAcceptedCounts(ts[op], FillEach(Marker(), texts));
      assert SafeTemplate(ts[op]);
      TemplateApplies(ts[op], texts);
    }
  }

  lemma TemplateApplies(t: Template, texts: seq<MarkedText>)
    requires SafeTemplate(t) && AllGuarded(texts)
    ensures AcceptsCount(t, |texts|) ==>
              && MapTemplate(t, FillEach(Marker(), texts)) == Ok(Fill(Marker(), Compose(t, texts)))
              && Clean(Compose(t, texts)) && Guarded(Compose(t, texts))
  {
    if AcceptsCount(t, |texts|) {
      ComposeNatural(t, Marker(), texts);
      ComposeClean(t, texts);
    }
  }

  lemma {:induction false} OperandIsMarked(cfg: Config, ts: TemplateTable, o: Operand)
    requires cfg.callOps == CompiledOperands(ts) && SafeTemplates(ts) && SafeOperand(o)
    ensures RenderOperand(cfg, o).Ok? <==> Fits(ts, o)
    ensures Fits(ts, o) ==> Marked(RenderOperand(cfg, o), TokensOf(ts, o))
    decreases o, 1
  {
    hide ApplyOperator, Reordered, Clean, Guarded, AcceptsCount, Compose, SafeTemplates, CompiledOperands,
      AttributeFirst, AllGuarded;
    match o
    case Attribute(entity, name) =>
      AttributeIsClean(entity, name);
      AttributeFills(Marker(), entity, name);
      assert MarkedAttribute(entity, name) == "\"" + (Marker()(entity) + (name + "\""));
    case Const(c) =>
      ConstantIsClean(c);
      FillChars(Marker(), ConstantText(c));
    case Call(op, args) =>
      OperandsAreMarked(cfg, ts, args);
      if AllFit(ts, args) {
        var texts := AllTokens(ts, args);
        ReorderingSeesGaps(texts);
        OperatorApplies(cfg, ts, op, AttributeFirst(texts));
      }
  }

  lemma {:induction false} OperandsAreMarked(cfg: Config, ts: TemplateTable, os: seq<Operand>)
    requires cfg.callOps == CompiledOperands(ts) && SafeTemplates(ts) && AllSafe(os)
    ensures RenderOperands(cfg, os).Ok? <==> AllFit(ts, os)
    ensures AllFit(ts, os) ==> AllMarked(RenderOperands(cfg, os), AllTokens(ts, os))
    decreases os, 0
  {
    hide Clean, Guarded, SafeTemplates, CompiledOperands, TokensOf, Fits, SafeOperand;
    if os == [] {
      assert FillEach(Marker(), []) == [];
    } else {
      OperandIsMarked(cfg, ts, os[0]);
      OperandsAreMarked(cfg, ts, os[1..]);
      if AllFit(ts, os) {
        FillEachCons(Marker(), TokensOf(ts, os[0]), AllTokens(ts, os[1..]));
      }
    }
  }

  // ---------------------------------------------------------------- rendering with paths

  /** Rendering with the path of each entity in its place. */
  function DirectOperand(ts: TemplateTable, path: string -> string, o: Operand): string
    requires SafeTemplates(ts) && Fits(ts, o)
    decreases o, 1
  {
    match o
    case Attribute(entity, name) => "\"" + path(entity) + name + "\""
    case Const(c) => ConstantText(c)
    case Call(op, args) =>
      var texts := DirectOperands(ts, path, args);
      var ordered := if |args| == 2 && !NamesEntity(ts, args[0]) then [texts[1], texts[0]] else texts;
      Substitute(Pieces(ts[op].mapping), (c: char) => c, ordered[..ts[op].argsCount])
      + (if |args| > ts[op].argsCount then " = " + ordered[ts[op].argsCount] else "")
  }

  function DirectOperands(ts: TemplateTable, path: string -> string, os: seq<Operand>): (r: seq<string>)
    requires SafeTemplates(ts) && AllFit(ts, os)
    ensures |r| == |os|
    decreases os, 0
  {
    if os == [] then [] else [DirectOperand(ts, path, os[0])] + DirectOperands(ts, path, os[1..])
  }

  /** Some attribute of the operand is part of its text. */
  predicate NamesEntity(ts: TemplateTable, o: Operand)
    requires SafeTemplates(ts) && Fits(ts, o)
  {
    Gaps(TokensOf(ts, o)) != []
  }

  lemma {:induction false} DirectIsFill(ts: TemplateTable, path: string -> string, o: Operand)
    requires SafeTemplates(ts) && Fits(ts, o)
    ensures DirectOperand(ts, path, o) == Fill(path, TokensOf(ts, o))
    decreases o, 1
  {
    hide SafeTemplate, Pieces, Compose, AcceptsCount, AttributeTokens;
    match o
    case Attribute(entity, name) =>
      AttributeFills(path, entity, name);
    case Const(c) =>
      FillChars(path, ConstantText(c));
    case Call(op, args) =>
      DirectIsFillEach(ts, path, args);
      var texts := AllTokens(ts, args);
      assert |args| == 2 ==> texts[0] == TokensOf(ts, args[0]);
      assert SafeTemplate(ts[op]);
      FillCompose(ts[op], path, AttributeFirst(texts));
      FillAttributeFirst(path, texts);
  }

  lemma FillAttributeFirst(fill: string -> string, texts: seq<MarkedText>)
    ensures FillEach(fill, AttributeFirst(texts)) ==
            if |texts| == 2 && Gaps(texts[0]) == [] then [Fill(fill, texts[1]), Fill(fill, texts[0])]
            else FillEach(fill, texts)
  {
  }

  lemma FillCompose(t: Template, fill: string -> string, texts: seq<MarkedText>)
    requires SafeTemplate(t) && AcceptsCount(t, |texts|)
    ensures var args := FillEach(fill, texts);
            Fill(fill, Compose(t, texts)) ==
            Substitute(Pieces(t.mapping), (c: char) => c, args[..t.argsCount])
            + (if |args| > t.argsCount then " = " + args[t.argsCount] else "")
  {
    ComposeNatural(t, fill, texts);
    WellFormedSubstitutes(t, FillEach(fill, texts));
  }

  lemma {:induction false} DirectIsFillEach(ts: TemplateTable, path: string -> string, os: seq<Operand>)
    requires SafeTemplates(ts) && AllFit(ts, os)
    ensures DirectOperands(ts, path, os) == FillEach(path, AllTokens(ts, os))
    decreases os, 0
  {
    hide SafeTemplates, TokensOf;
    if os != [] {
      DirectIsFill(ts, path, os[0]);
      DirectIsFillEach(ts, path, os[1..]);
      FillEachCons(path, TokensOf(ts, os[0]), AllTokens(ts, os[1..]));
    }
  }

  // ---------------------------------------------------------------- filters

  function DirectFilter(ts: TemplateTable, path: string -> string, q: Query): string
    requires SafeTemplates(ts) && AllFit(ts, q.clauses)
  {
    FilterText(DirectOperands(ts, path, q.clauses))
  }

  function DirectFilters(ts: TemplateTable, path: string -> string, qs: seq<Query>): (r: seq<string>)
    requires SafeTemplates(ts) && QueriesFit(ts, qs)
    ensures |r| == |qs|
    ensures forall i :: 0 <= i < |r| ==> r[i] == DirectFilter(ts, path, qs[i])
  {
    seq(|qs|, i requires 0 <= i < |qs| => DirectFilter(ts, path, qs[i]))
  }

  predicate QueriesFit(ts: TemplateTable, qs: seq<Query>) {
    forall i :: 0 <= i < |qs| ==> AllFit(ts, qs[i].clauses)
  }

  predicate SafeQueries(qs: seq<Query>) {
    forall i :: 0 <= i < |qs| ==> AllSafe(qs[i].clauses)
  }

  /** The queries on a collection, in order. */
  function QueriesOn(collection: string, qs: seq<Query>): (r: seq<Query>)
    ensures forall q :: q in r <==> q in qs && q.from == collection
  {
    if qs == [] then []
    else (if qs[0].from == collection then [qs[0]] else []) + QueriesOn(collection, qs[1..])
  }

  function FilterTokens(ts: TemplateTable, q: Query): MarkedText
    requires SafeTemplates(ts) && AllFit(ts, q.clauses)
  {
    if q.clauses == [] then []
    else Chars("{") + (Join(AllTokens(ts, q.clauses), Chars(", ")) + Chars("}"))
  }

  function FiltersTokens(ts: TemplateTable, qs: seq<Query>): (r: seq<MarkedText>)
    requires SafeTemplates(ts) && QueriesFit(ts, qs)
    ensures |r| == |qs|
    ensures forall i :: 0 <= i < |r| ==> r[i] == FilterTokens(ts, qs[i])
  {
    seq(|qs|, i requires 0 <= i < |qs| => FilterTokens(ts, qs[i]))
  }

  function CombinedTokens(texts: seq<MarkedText>): MarkedText {
    Chars("{ \"$or\": [ ") + (Join(texts, Chars(", ")) + Chars(" ] }"))
  }

  lemma FilterFills(ts: TemplateTable, fill: string -> string, q: Query)
    requires SafeTemplates(ts) && AllFit(ts, q.clauses)
    ensures Fill(fill, FilterTokens(ts, q)) == FilterText(FillEach(fill, AllTokens(ts, q.clauses)))
  {
    var texts := AllTokens(ts, q.clauses);
    var middle := Join(texts, Chars<string>(", "));
    FillAppend(fill, Chars("{"), middle + Chars("}"));
    FillAppend(fill, middle, Chars("}"));
    FillChars(fill, "{");
    FillChars(fill, "}");
    FillJoin(fill, texts, ", ");
  }

  lemma FilterIsClean(ts: TemplateTable, q: Query)
    requires SafeTemplates(ts) && AllFit(ts, q.clauses) && AllGuarded(AllTokens(ts, q.clauses))
    ensures Clean(FilterTokens(ts, q)) && EndsSafely(FilterTokens(ts, q))
  {
    hide AllTokens;
    if q.clauses != [] {
      var texts := AllTokens(ts, q.clauses);
      assert forall i :: 0 <= i < |texts| ==> Clean(texts[i]) && Guarded(texts[i]);
      JoinClean(texts, ", ");
      var middle := Join(texts, Chars<string>(", "));
      CleanChars("}");
      CleanAppend(middle, Chars("}"));
      CleanChars("{");
      assert (Chars<string>("{") + (middle + Chars("}")))[1..] == middle + Chars("}");
    }
  }

  lemma CombinedFills(fill: string -> string, texts: seq<MarkedText>)
    ensures Fill(fill, CombinedTokens(texts)) == CombinedFilter(FillEach(fill, texts))
  {
    var head, tail := "{ \"$or\": [ ", " ] }";
    var middle := Join(texts, Chars<string>(", "));
    FillAppend(fill, Chars(head), middle + Chars(tail));
    FillAppend(fill, middle, Chars(tail));
    FillChars(fill, head);
    FillChars(fill, tail);
    FillJoin(fill, texts, ", ");
  }

  lemma CombinedIsClean(texts: seq<MarkedText>)
    requires forall i :: 0 <= i < |texts| ==> Clean(texts[i]) && EndsSafely(texts[i])
    ensures Clean(CombinedTokens(texts))
  {
    JoinClean(texts, ", ");
    var middle := Join(texts, Chars<string>(", "));
    CleanChars(" ] }");
    CleanAppend(middle, Chars(" ] }"));
    CleanChars("{ \"$or\": [ ");
    CleanAppend(Chars("{ \"$or\": [ "), middle + Chars(" ] }"));
  }

  lemma NothingToReach(paths: EntityConfig.Paths, collection: string)
    ensures AllReachable(paths, collection, [])
  {
  }

  lemma {:induction false} GapsOfJoin(paths: EntityConfig.Paths, collection: string, texts: seq<MarkedText>,
                                      separator: string)
    ensures AllReachable(paths, collection, Gaps(Join(texts, Chars(separator)))) <==>
            forall i :: 0 <= i < |texts| ==> AllReachable(paths, collection, Gaps(texts[i]))
  {
    hide AllReachable;
    if |texts| > 1 {
      var rest := Join(texts[1..], Chars<string>(separator));
      GapsOfJoin(paths, collection, texts[1..], separator);
      GapsAppend(texts[0] + Chars(separator), rest);
      GapsAppend(texts[0], Chars(separator));
      GapsChars<string>(separator);
      assert Gaps(texts[0]) + [] == Gaps(texts[0]);
      AllReachableAppend(paths, collection, Gaps(texts[0]), Gaps(rest));
      assert forall i :: 0 < i < |texts| ==> texts[i] == texts[1..][i - 1];
      assert forall i :: 0 <= i < |texts[1..]| ==> texts[1..][i] == texts[i + 1];
    } else if texts == [] {
      NothingToReach(paths, collection);
    }
  }

  lemma GapsOfCombined(texts: seq<MarkedText>)
    ensures Gaps(CombinedTokens(texts)) == Gaps(Join(texts, Chars(", ")))
  {
    var middle := Join(texts, Chars<string>(", "));
    GapsAppend(Chars<string>("{ \"$or\": [ "), middle + Chars(" ] }"));
    GapsAppend(middle, Chars(" ] }"));
    GapsChars<string>("{ \"$or\": [ ");
    GapsChars<string>(" ] }");
    assert [] + (Gaps(middle) + []) == Gaps(middle);
  }

  // ---------------------------------------------------------------- whole unions

  /** Every entity named in the filter is the collection itself or has a path below it. */
  predicate Reaches(ts: TemplateTable, paths: EntityConfig.Paths, q: Query)
    requires SafeTemplates(ts) && AllFit(ts, q.clauses)
  {
    AllReachable(paths, q.from, Gaps(FilterTokens(ts, q)))
  }

  predicate AllReach(ts: TemplateTable, paths: EntityConfig.Paths, qs: seq<Query>)
    requires SafeTemplates(ts) && QueriesFit(ts, qs)
  {
    forall i :: 0 <= i < |qs| ==> Reaches(ts, paths, qs[i])
  }

  function MarkedFilters(ts: TemplateTable, qs: seq<Query>): (r: seq<ColFilter>)
    requires SafeTemplates(ts) && QueriesFit(ts, qs)
    ensures |r| == |qs|
    ensures forall i :: 0 <= i < |r| ==> r[i] == ColFilter(qs[i].from, Fill(Marker(), FilterTokens(ts, qs[i])))
  {
    seq(|qs|, i requires 0 <= i < |qs| => ColFilter(qs[i].from, Fill(Marker(), FilterTokens(ts, qs[i]))))
  }

  lemma QueryIsMarked(cfg: Config, ts: TemplateTable, q: Query)
    requires cfg.callOps == CompiledOperands(ts) && SafeTemplates(ts) && AllSafe(q.clauses)
    ensures RenderFilter(cfg, q).Ok? <==> AllFit(ts, q.clauses)
    ensures AllFit(ts, q.clauses) ==>
              && RenderFilter(cfg, q) == Ok(ColFilter(q.from, Fill(Marker(), FilterTokens(ts, q))))
              && Clean(FilterTokens(ts, q)) && EndsSafely(FilterTokens(ts, q))
  {
    hide FilterText, Clean, EndsSafely, FilterTokens, SafeTemplates, CompiledOperands;
    OperandsAreMarked(cfg, ts, q.clauses);
    if AllFit(ts, q.clauses) {
      FilterFills(ts, Marker(), q);
      FilterIsClean(ts, q);
    }
  }

  lemma FitsCons(ts: TemplateTable, qs: seq<Query>)
    requires qs != []
    ensures QueriesFit(ts, qs) <==> AllFit(ts, qs[0].clauses) && QueriesFit(ts, qs[1..])
  {
    hide AllFit;
    assert forall i :: 0 < i < |qs| ==> qs[i] == qs[1..][i - 1];
  }

  lemma {:induction false} QueriesAreMarked(cfg: Config, ts: TemplateTable, qs: seq<Query>)
    requires cfg.callOps == CompiledOperands(ts) && SafeTemplates(ts) && SafeQueries(qs)
    ensures RenderFilters(cfg, qs).Ok? <==> QueriesFit(ts, qs)
    ensures QueriesFit(ts, qs) ==> RenderFilters(cfg, qs) == Ok(MarkedFilters(ts, qs))
    decreases |qs|
  {
    if qs != [] {
      assert AllSafe(qs[0].clauses);
      QueryIsMarked(cfg, ts, qs[0]);
      FitsCons(ts, qs);
      hide RenderFilter, FilterTokens, SafeTemplates, CompiledOperands, Clean, EndsSafely, AllSafe, AllFit, QueriesFit,
        MarkedFilters, Fill;
      assert forall i :: 0 <= i < |qs[1..]| ==> qs[1..][i] == qs[i + 1];
      QueriesAreMarked(cfg, ts, qs[1..]);
      if QueriesFit(ts, qs) {
        MarkedCons(ts, qs);
      }
    }
  }

  lemma FitOn(ts: TemplateTable, collection: string, qs: seq<Query>)
    requires QueriesFit(ts, qs)
    ensures QueriesFit(ts, QueriesOn(collection, qs))
  {
  }

  lemma MarkedCons(ts: TemplateTable, qs: seq<Query>)
    requires SafeTemplates(ts) && QueriesFit(ts, qs) && qs != []
    ensures QueriesFit(ts, qs[1..])
    ensures MarkedFilters(ts, qs) ==
            [ColFilter(qs[0].from, Fill(Marker(), FilterTokens(ts, qs[0])))] + MarkedFilters(ts, qs[1..])
  {
  }

  lemma TokensCons(ts: TemplateTable, first: Query, rest: seq<Query>)
    requires SafeTemplates(ts) && AllFit(ts, first.clauses) && QueriesFit(ts, rest)
    ensures QueriesFit(ts, [first] + rest)
    ensures FillEach(Marker(), FiltersTokens(ts, [first] + rest)) ==
            [Fill(Marker(), FilterTokens(ts, first))] + FillEach(Marker(), FiltersTokens(ts, rest))
  {
    hide Fill, FilterTokens, SafeTemplates, AllFit;
    var qs := [first] + rest;
    assert forall i :: 0 < i < |qs| ==> qs[i] == rest[i - 1];
    assert FiltersTokens(ts, qs) == [FilterTokens(ts, first)] + FiltersTokens(ts, rest);
    FillEachCons(Marker(), FilterTokens(ts, first), FiltersTokens(ts, rest));
  }

  lemma {:induction false} CollectedFilters(ts: TemplateTable, collection: string, qs: seq<Query>)
    requires SafeTemplates(ts) && QueriesFit(ts, qs)
    ensures QueriesFit(ts, QueriesOn(collection, qs))
    ensures OfCollection(collection, MarkedFilters(ts, qs)) ==
            FillEach(Marker(), FiltersTokens(ts, QueriesOn(collection, qs)))
    decreases |qs|
  {
    hide FilterTokens, SafeTemplates, AllFit, Fill, MarkedFilters, FiltersTokens;
    FitOn(ts, collection, qs);
    if qs == [] {
      assert MarkedFilters(ts, qs) == [] && FiltersTokens(ts, []) == [];
    } else {
      MarkedCons(ts, qs);
      CollectedFilters(ts, collection, qs[1..]);
      var marked := ColFilter(qs[0].from, Fill(Marker(), FilterTokens(ts, qs[0])));
      var rest, tail := QueriesOn(collection, qs[1..]), MarkedFilters(ts, qs[1..]);
      assert ([marked] + tail)[1..] == tail;
      if qs[0].from == collection {
        TokensCons(ts, qs[0], rest);
      } else {
        assert [] + rest == rest && [] + OfCollection(collection, tail) == OfCollection(collection, tail);
      }
    }
  }

  /** The final filter of one collection. */
  lemma FinalFilterIsDirect(ts: TemplateTable, paths: EntityConfig.Paths, collection: string, qs: seq<Query>)
    requires SafeTemplates(ts) && SafeQueries(qs) && QueriesFit(ts, qs)
    requires forall i :: 0 <= i < |qs| ==> qs[i].from == collection
    ensures var r := ReplaceMarkers(paths, collection,
                                    CombinedFilter(FillEach(Marker(), FiltersTokens(ts, qs))));
            && (r.Ok? <==> AllReach(ts, paths, qs))
            && (r.Ok? ==> r.value == CombinedFilter(DirectFilters(ts, PathOf(paths, collection), qs)))
  {
    hide CombinedFilter, FilterTokens, SafeTemplates, AllFit, CombinedTokens, Clean, EndsSafely, AllReachable, PathOf,
      DirectFilter, CompiledOperands;
    var texts := FiltersTokens(ts, qs);
    var cfg := Config(paths, CompiledOperands(ts));
    forall i | 0 <= i < |texts|
      ensures Clean(texts[i]) && EndsSafely(texts[i])
      ensures Fill(PathOf(paths, collection), texts[i]) == DirectFilter(ts, PathOf(paths, collection), qs[i])
    {
      QueryIsMarked(cfg, ts, qs[i]);
      DirectFilterFills(ts, PathOf(paths, collection), qs[i]);
    }
    CombinedIsClean(texts);
    CombinedFills(Marker(), texts);
    ReplaceIsResolve(paths, collection, CombinedTokens(texts));
    ResolveIsFill(paths, collection, CombinedTokens(texts));
    GapsOfCombined(texts);
    GapsOfJoin(paths, collection, texts, ", ");
    CombinedFills(PathOf(paths, collection), texts);
    assert FillEach(PathOf(paths, collection), texts) == DirectFilters(ts, PathOf(paths, collection), qs);
    assert AllReach(ts, paths, qs) <==> forall i :: 0 <= i < |texts| ==>
        AllReachable(paths, collection, Gaps(texts[i])) by {
      assert forall i :: 0 <= i < |qs| ==>
        (Reaches(ts, paths, qs[i]) <==> AllReachable(paths, collection, Gaps(texts[i])));
    }
  }

  lemma DirectFilterFills(ts: TemplateTable, path: string -> string, q: Query)
    requires SafeTemplates(ts) && AllFit(ts, q.clauses)
    ensures Fill(path, FilterTokens(ts, q)) == DirectFilter(ts, path, q)
  {
    FilterFills(ts, path, q);
    DirectIsFillEach(ts, path, q.clauses);
  }

  /** What the translator is expected to return for a union whose operators fit. */
  ghost predicate DirectResult(ts: TemplateTable, paths: EntityConfig.Paths, qs: seq<Query>,
                               result: map<string, string>)
    requires SafeTemplates(ts) && QueriesFit(ts, qs)
  {
    && (forall c :: c in result <==> exists i :: 0 <= i < |qs| && qs[i].from == c)
    && (forall c :: c in result ==> IsDirect(ts, paths, qs, c, result[c]))
  }

  /** The text is the combined filter of the queries on the collection, rendered with their paths. */
  ghost predicate IsDirect(ts: TemplateTable, paths: EntityConfig.Paths, qs: seq<Query>, c: string, text: string)
    requires SafeTemplates(ts)
  {
    && QueriesFit(ts, QueriesOn(c, qs))
    && text == CombinedFilter(DirectFilters(ts, PathOf(paths, c), QueriesOn(c, qs)))
  }

  /** Regrouping the filters of a union and replacing the markers afterwards, in whatever order the
      collections come, is rendering each filter with its paths; it fails exactly when an operator does
      not fit or an entity in a filter has no path below the filter's collection. */
  lemma TranslationIsDirect(cfg: Config, ts: TemplateTable, qs: seq<Query>, r: Result<map<string, string>, MongoError>)
    requires cfg.callOps == CompiledOperands(ts) && SafeTemplates(ts)
    requires AllCallClauses(qs) && SafeQueries(qs) && Translated(cfg, qs, r)
    ensures r.Ok? <==> QueriesFit(ts, qs) && AllReach(ts, cfg.entityPaths, qs)
    ensures r.Ok? ==> DirectResult(ts, cfg.entityPaths, qs, r.value)
  {
    hide Run, CombinedFilter, FilterTokens, SafeTemplates, AllFit, AllReachable, PathOf, DirectFilters,
      CompiledOperands, MarkedFilters, FiltersTokens, Regroup, SafeQueries, Reaches, DirectResult;
    MachineRefinesRendering(cfg, qs);
    QueriesAreMarked(cfg, ts, qs);
    if QueriesFit(ts, qs) {
      var groups := Regroup(map[], MarkedFilters(ts, qs));
      assert FinishedUnion(cfg.entityPaths, groups, map[], r);
      AllGroupsAreDirect(ts, cfg.entityPaths, qs);
      UnionIsDirect(ts, cfg.entityPaths, qs, groups, r);
    }
  }

  lemma GroupIsDirect(ts: TemplateTable, paths: EntityConfig.Paths, qs: seq<Query>, c: string)
    requires SafeTemplates(ts) && SafeQueries(qs) && QueriesFit(ts, qs)
    ensures var groups := Regroup(map[], MarkedFilters(ts, qs));
            && (c in groups <==> exists i :: 0 <= i < |qs| && qs[i].from == c)
            && QueriesFit(ts, QueriesOn(c, qs))
            && (c in groups ==>
                  var r := FinalFilter(paths, groups, c);
                  && (r.Ok? <==> AllReach(ts, paths, QueriesOn(c, qs)))
                  && (r.Ok? ==> r.value == CombinedFilter(DirectFilters(ts, PathOf(paths, c), QueriesOn(c, qs)))))
  {
    hide CombinedFilter, SafeTemplates, AllFit, PathOf, FilterTokens, DirectFilters, Reaches;
    var filters := MarkedFilters(ts, qs);
    RegroupKeepsFilters(map[], filters, c);
    CollectedFilters(ts, c, qs);
    var chosen := QueriesOn(c, qs);
    assert SafeQueries(chosen) && forall i :: 0 <= i < |chosen| ==> chosen[i].from == c by {
      forall i | 0 <= i < |chosen| ensures AllSafe(chosen[i].clauses) && chosen[i].from == c {
        assert chosen[i] in chosen;
      }
    }
    FinalFilterIsDirect(ts, paths, c, chosen);
    assert [] + OfCollection(c, filters) == OfCollection(c, filters);
    assert c in CollectionsOf(filters) <==> exists i :: 0 <= i < |qs| && qs[i].from == c;
  }

  ghost predicate ReachOn(ts: TemplateTable, paths: EntityConfig.Paths, qs: seq<Query>, c: string)
    requires SafeTemplates(ts)
  {
    QueriesFit(ts, QueriesOn(c, qs)) && AllReach(ts, paths, QueriesOn(c, qs))
  }

  /** What GroupIsDirect says, for all collections. */
  ghost predicate GroupsAreDirect(ts: TemplateTable, paths: EntityConfig.Paths, qs: seq<Query>,
                                  groups: map<string, seq<string>>)
    requires SafeTemplates(ts) && QueriesFit(ts, qs)
  {
    && (forall c :: c in groups <==> exists i :: 0 <= i < |qs| && qs[i].from == c)
    && (forall c :: c in groups ==>
          && (FinalFilter(paths, groups, c).Ok? <==> ReachOn(ts, paths, qs, c))
          && (FinalFilter(paths, groups, c).Ok? ==> IsDirect(ts, paths, qs, c, FinalFilter(paths, groups, c).value)))
  }

  lemma SomeUnreachable(ts: TemplateTable, paths: EntityConfig.Paths, qs: seq<Query>, c: string)
    requires SafeTemplates(ts) && QueriesFit(ts, qs)
    ensures AllReach(ts, paths, qs) ==> ReachOn(ts, paths, qs, c)
  {
    hide SafeTemplates, AllFit, Reaches;
  }

  lemma EachReaches(ts: TemplateTable, paths: EntityConfig.Paths, qs: seq<Query>)
    requires SafeTemplates(ts) && QueriesFit(ts, qs)
    requires forall i :: 0 <= i < |qs| ==> ReachOn(ts, paths, qs, qs[i].from)
    ensures AllReach(ts, paths, qs)
  {
    hide SafeTemplates, AllFit, Reaches;
    forall i | 0 <= i < |qs| ensures Reaches(ts, paths, qs[i]) {
      assert ReachOn(ts, paths, qs, qs[i].from) && qs[i] in QueriesOn(qs[i].from, qs);
    }
  }

  lemma AllGroupsAreDirect(ts: TemplateTable, paths: EntityConfig.Paths, qs: seq<Query>)
    requires SafeTemplates(ts) && SafeQueries(qs) && QueriesFit(ts, qs)
    ensures GroupsAreDirect(ts, paths, qs, Regroup(map[], MarkedFilters(ts, qs)))
  {
    hide CombinedFilter, SafeTemplates, SafeQueries, PathOf, DirectFilters, FinalFilter, Regroup, MarkedFilters,
      QueriesFit, AllReach, QueriesOn;
    forall c {
      GroupIsDirect(ts, paths, qs, c);
    }
  }

  lemma FinishedIsDirect(ts: TemplateTable, paths: EntityConfig.Paths, qs: seq<Query>,
                         groups: map<string, seq<string>>, result: map<string, string>)
    requires SafeTemplates(ts) && QueriesFit(ts, qs) && GroupsAreDirect(ts, paths, qs, groups)
    requires result.Keys == groups.Keys
    requires forall c :: c in groups ==> FinalFilter(paths, groups, c) == Ok(result[c])
    ensures AllReach(ts, paths, qs) && DirectResult(ts, paths, qs, result)
  {
    hide SafeTemplates, FinalFilter, QueriesFit, AllReach, ReachOn, IsDirect;
    assert forall i :: 0 <= i < |qs| ==> qs[i].from in groups;
    EachReaches(ts, paths, qs);
  }

  lemma UnionIsDirect(ts: TemplateTable, paths: EntityConfig.Paths, qs: seq<Query>, groups: map<string, seq<string>>,
                      r: Result<map<string, string>, MongoError>)
    requires SafeTemplates(ts) && QueriesFit(ts, qs) && GroupsAreDirect(ts, paths, qs, groups)
    requires FinishedUnion(paths, groups, map[], r)
    ensures r.Ok? <==> AllReach(ts, paths, qs)
    ensures r.Ok? ==> DirectResult(ts, paths, qs, r.value)
  {
    hide SafeTemplates, FinalFilter, QueriesFit, AllReach, ReachOn, IsDirect, DirectResult;
    match r
    case Ok(result) =>
      FinishedIsDirect(ts, paths, qs, groups, result);
    case Err(e) =>
      var c :| c in groups && FinalFilter(paths, groups, c) == Err(e);
      SomeUnreachable(ts, paths, qs, c);
  }
}
