/** Which entities a filter names: where templates use all their operands, exactly those of its query. */
module MongoEntities {
  import opened Tokens
  import opened QueryAst
  import opened Templates
  import opened TemplateTheorems
  import opened MongoTranslator
  import opened MongoMarkers
  import opened MongoDirect
  import EntityConfig

  predicate UsesOperands(t: Template) {
    forall k :: 0 <= k < t.argsCount ==> k in Holes(Pieces(t.mapping))
  }

  predicate UsesEveryOperand(ts: TemplateTable) {
    forall op :: op in ts ==> UsesOperands(ts[op])
  }

  predicate SomeNames(texts: seq<MarkedText>, e: string) {
    exists k :: 0 <= k < |texts| && e in Gaps(texts[k])
  }

  predicate HolesName(holes: seq<nat>, texts: seq<MarkedText>, e: string)
    requires forall i :: 0 <= i < |holes| ==> holes[i] < |texts|
  {
    exists i :: 0 <= i < |holes| && e in Gaps(texts[holes[i]])
  }

  lemma SomeNamesCons(first: MarkedText, rest: seq<MarkedText>, e: string)
    ensures SomeNames([first] + rest, e) <==> e in Gaps(first) || SomeNames(rest, e)
  {
    var texts := [first] + rest;
    assert texts[0] == first;
    assert forall k :: 0 <= k < |rest| ==> texts[k + 1] == rest[k];
  }

  lemma HolesNameCons(hole: nat, holes: seq<nat>, texts: seq<MarkedText>, e: string)
    requires hole < |texts| && forall i :: 0 <= i < |holes| ==> holes[i] < |texts|
    ensures HolesName([hole] + holes, texts, e) <==> e in Gaps(texts[hole]) || HolesName(holes, texts, e)
  {
    var all := [hole] + holes;
    assert all[0] == hole;
    assert forall k :: 0 <= k < |holes| ==> all[k + 1] == holes[k];
  }

  lemma GapsOfLiteral(c: char)
    ensures Gaps([AsToken<string>(c)]) == []
  {
  }

  lemma {:induction false} GapsOfSubstitute(ps: seq<Piece>, args: seq<MarkedText>, e: string)
    requires HolesBelow(ps, |args|)
    ensures e in Gaps(Substitute(ps, AsToken<string>, args)) <==> HolesName(Holes(ps), args, e)
  {
    hide HolesName, Gaps, Decimal;
    if ps == [] {
      assert Gaps<string>([]) == [] by { NoGaps(); }
      assert !HolesName([], args, e) by { NoHoles(args, e); }
    } else {
      HolesBelowRest(ps, |args|);
      GapsOfSubstitute(ps[1..], args, e);
      var rest := Substitute(ps[1..], AsToken<string>, args);
      match ps[0]
      case Lit(c) =>
        GapsAppend([AsToken<string>(c)], rest);
        GapsOfLiteral(c);
        assert Holes(ps) == Holes(ps[1..]) && [] + Gaps(rest) == Gaps(rest);
      case Hole(d) =>
        GapsAppend(args[Decimal(d)], rest);
        HolesNameCons(Decimal(d), Holes(ps[1..]), args, e);
    }
  }

  lemma NoGaps()
    ensures Gaps<string>([]) == []
  {
  }

  lemma NoHoles(args: seq<MarkedText>, e: string)
    ensures !HolesName([], args, e)
  {
  }

  lemma AllHolesName(t: Template, args: seq<MarkedText>, e: string)
    requires WellFormed(t) && UsesOperands(t) && |args| == t.argsCount
    ensures HolesName(Holes(Pieces(t.mapping)), args, e) <==> SomeNames(args, e)
  {
    hide Pieces, Gaps;
    var holes := Holes(Pieces(t.mapping));
    if k :| 0 <= k < |args| && e in Gaps(args[k]) {
      assert k in holes;
    }
  }

  lemma GapsOfCompose(t: Template, args: seq<MarkedText>, e: string)
    requires WellFormed(t) && UsesOperands(t) && AcceptsCount(t, |args|)
    ensures e in Gaps(Compose(t, args)) <==> SomeNames(args, e)
  {
    hide Gaps, Pieces, UsesOperands;
    var n := t.argsCount;
    var body := Substitute(Pieces(t.mapping), AsToken<string>, args[..n]);
    GapsOfSubstitute(Pieces(t.mapping), args[..n], e);
    AllHolesName(t, args[..n], e);
    if |args| > n {
      GapsAppend(body, Chars(" = ") + args[n]);
      GapsAppend(Chars<string>(" = "), args[n]);
      GapsChars<string>(" = ");
      assert args == args[..n] + [args[n]];
      LastNames(args[..n], args[n], e);
    } else {
      assert body + [] == body && args[..n] == args;
    }
  }

  lemma LastNames(texts: seq<MarkedText>, last: MarkedText, e: string)
    ensures SomeNames(texts + [last], e) <==> SomeNames(texts, e) || e in Gaps(last)
  {
    hide Gaps;
    var all := texts + [last];
    assert all[|texts|] == last;
    assert forall k :: 0 <= k < |texts| ==> all[k] == texts[k];
  }

  lemma SwappingKeepsNames(texts: seq<MarkedText>, e: string)
    ensures SomeNames(AttributeFirst(texts), e) <==> SomeNames(texts, e)
  {
    var ordered := AttributeFirst(texts);
    if ordered != texts {
      assert ordered[0] == texts[1] && ordered[1] == texts[0];
    }
  }

  lemma AttributeGaps(entity: string, name: string)
    ensures Gaps(AttributeTokens(entity, name)) == [entity]
  {
    var quote: MarkedText := [Ch('"')];
    assert quote[1..] == [] && Gaps(quote) == [];
    var marker: MarkedText := [Gap(entity)];
    assert marker[1..] == [] && Gaps(marker) == [entity];
    GapsAppend(quote, marker + (Chars(name) + quote));
    GapsAppend(marker, Chars(name) + quote);
    GapsAppend(Chars(name), quote);
    GapsChars<string>(name);
  }

  lemma {:induction false} TextNamesTheEntities(ts: TemplateTable, o: Operand, e: string)
    requires SafeTemplates(ts) && UsesEveryOperand(ts) && Fits(ts, o)
    ensures e in Gaps(TokensOf(ts, o)) <==> e in EntitiesOf(o)
    decreases o, 1
  {
    hide Compose, Pieces, SomeNames, UsesOperands, AttributeFirst, Gaps;
    match o
    case Attribute(entity, name) =>
      AttributeGaps(entity, name);
    case Const(c) =>
      GapsChars<string>(ConstantText(c));
    case Call(op, args) =>
      TextsNameTheEntities(ts, args, e);
      SwappingKeepsNames(AllTokens(ts, args), e);
      GapsOfCompose(ts[op], AttributeFirst(AllTokens(ts, args)), e);
  }

  lemma {:induction false} TextsNameTheEntities(ts: TemplateTable, os: seq<Operand>, e: string)
    requires SafeTemplates(ts) && UsesEveryOperand(ts) && AllFit(ts, os)
    ensures SomeNames(AllTokens(ts, os), e) <==> e in EntitiesOfAll(os)
    decreases os, 0
  {
    hide SafeTemplates, UsesEveryOperand, TokensOf, EntitiesOf;
    if os != [] {
      TextNamesTheEntities(ts, os[0], e);
      TextsNameTheEntities(ts, os[1..], e);
      SomeNamesCons(TokensOf(ts, os[0]), AllTokens(ts, os[1..]), e);
    }
  }

  /** A filter can be finished exactly when every entity of its query has a path. */
  lemma ReachesExactly(ts: TemplateTable, paths: EntityConfig.Paths, q: Query)
    requires SafeTemplates(ts) && UsesEveryOperand(ts) && AllFit(ts, q.clauses)
    ensures Reaches(ts, paths, q) <==>
            forall e :: e in EntitiesOfAll(q.clauses) ==> PathPrefix(paths, q.from, e).Ok?
  {
    hide SafeTemplates, UsesEveryOperand, PathPrefix, AllTokens, AllFit, SomeNames, AllReachable, FilterTokens;
    var texts := AllTokens(ts, q.clauses);
    forall e ensures SomeNames(texts, e) <==> e in EntitiesOfAll(q.clauses) {
      TextsNameTheEntities(ts, q.clauses, e);
    }
    GapsOfFilter(ts, q);
    GapsOfJoin(paths, q.from, texts, ", ");
    EachTextReaches(paths, q.from, texts);
  }

  lemma RootOccurs(root: EntityConfig.Entity)
    ensures EntityConfig.OccursIn(root, root.MappedName())
  {
    assert EntityConfig.LeadsTo(root, [root.name], root.MappedName());
  }

  /** The prefix of an entity spells the names below the collection on the way to it. */
  lemma PrefixFollowsTheTree(roots: seq<EntityConfig.Entity>, i: nat, e: string)
    requires EntityConfig.DistinctRoots(roots) && i < |roots|
    ensures var prefix := PathPrefix(EntityConfig.PathsOf(roots), roots[i].MappedName(), e);
            && (prefix.Ok? <==> EntityConfig.OccursIn(roots[i], e))
            && (e == roots[i].MappedName() ==> prefix.Ok? && prefix.value == "")
            && (prefix.Ok? && e != roots[i].MappedName() ==>
                  exists path :: EntityConfig.LeadsTo(roots[i], path, e) && prefix.value == Join(path[1..], ".") + ".")
  {
    hide EntityConfig.PathsOf, EntityConfig.IsLast, EntityConfig.OccursIn, Join;
    EntityConfig.PathIndexAgreesWithTree(roots, i, e);
    if e == roots[i].MappedName() {
      assert EntityConfig.OccursIn(roots[i], e) by { RootOccurs(roots[i]); }
    } else {
      var index := EntityConfig.PathsOf(roots)[roots[i].MappedName()];
      assert e in index ==> EntityConfig.LeadsTo(roots[i], index[e], e);
    }
  }

  /** With the merged index of all schemas of a datastore, a filter can be finished exactly when every entity of
      its query occurs in the tree of its collection. */
  lemma ReachesWithinTheTree(ts: TemplateTable, schemas: EntityConfig.Schemas, paths: EntityConfig.Paths, s: string,
                             i: nat, q: Query)
    requires EntityConfig.MergedFrom(schemas, paths) && EntityConfig.Unambiguous(schemas)
    requires s in schemas && EntityConfig.DistinctRoots(schemas[s]) && i < |schemas[s]|
    requires q.from == schemas[s][i].MappedName()
    requires SafeTemplates(ts) && UsesEveryOperand(ts) && AllFit(ts, q.clauses)
    ensures Reaches(ts, paths, q) <==>
            forall e :: e in EntitiesOfAll(q.clauses) ==> EntityConfig.OccursIn(schemas[s][i], e)
  {
    hide Reaches, PathPrefix, EntityConfig.OccursIn, SafeTemplates, UsesEveryOperand, EntityConfig.MergedFrom,
      EntityConfig.Unambiguous, EntityConfig.PathsOf, AllFit;
    ReachesExactly(ts, paths, q);
    EntityConfig.MergingKeepsIndexes(schemas, paths, s, i);
    forall e ensures PathPrefix(paths, q.from, e).Ok? <==> EntityConfig.OccursIn(schemas[s][i], e) {
      PrefixFollowsTheTree(schemas[s], i, e);
      SamePrefix(EntityConfig.PathsOf(schemas[s]), paths, q.from, e);
    }
  }

  lemma SamePrefix(a: EntityConfig.Paths, b: EntityConfig.Paths, collection: string, e: string)
    requires collection in a && collection in b && a[collection] == b[collection]
    ensures PathPrefix(a, collection, e) == PathPrefix(b, collection, e)
  {
  }

  lemma EachTextReaches(paths: EntityConfig.Paths, collection: string, texts: seq<MarkedText>)
    ensures (forall i :: 0 <= i < |texts| ==> AllReachable(paths, collection, Gaps(texts[i]))) <==>
            forall e :: SomeNames(texts, e) ==> PathPrefix(paths, collection, e).Ok?
  {
  }

  lemma GapsOfFilter(ts: TemplateTable, q: Query)
    requires SafeTemplates(ts) && AllFit(ts, q.clauses)
    ensures Gaps(FilterTokens(ts, q)) == Gaps(Join(AllTokens(ts, q.clauses), Chars(", ")))
  {
    var middle := Join(AllTokens(ts, q.clauses), Chars<string>(", "));
    if q.clauses != [] {
      GapsAppend(Chars<string>("{"), middle + Chars("}"));
      GapsAppend(middle, Chars("}"));
      GapsChars<string>("{");
      GapsChars<string>("}");
      assert [] + (Gaps(middle) + []) == Gaps(middle);
    }
  }
}
