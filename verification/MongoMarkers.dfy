/** Marking entities in the text and replacing the marks afterwards is the same as rendering every
    attribute with its path in the first place. */
module MongoMarkers {
  import opened Results
  import opened Tokens
  import opened Templates
  import opened TemplateTheorems
  import opened MongoTranslator
  import EntityConfig

  type MarkedText = seq<Token<string>>

  /** How the translator writes an entity into the text. */
  function Marker(): string -> string {
    (e: string) => "{{" + e + ".}}"
  }

  // ---------------------------------------------------------------- texts the matcher reads correctly

  predicate HasPair(s: string, c: char) {
    exists i :: 0 <= i < |s| - 1 && s[i] == c && s[i + 1] == c
  }

  /** Names of entities without "}}" and without line breaks. */
  predicate SafeEntity(e: string) {
    !HasPair(e, '}') && '\n' !in e
  }

  predicate PlainChar(t: Token<string>) {
    t.Ch? && t.c != '{'
  }

  /** The token is readable, and no opening brace before another one or before a marker. */
  predicate Precedes(first: Token<string>, rest: MarkedText) {
    && (first == Ch('{') ==> rest == [] || PlainChar(rest[0]))
    && (first.Gap? ==> SafeEntity(first.id))
  }

  /** No opening brace stands before another one or before a marker, and all markers are readable. */
  predicate Clean(text: MarkedText) {
    text == [] || (Precedes(text[0], text[1..]) && Clean(text[1..]))
  }

  predicate EndsSafely(text: MarkedText) {
    text == [] || text[|text| - 1] != Ch('{')
  }

  /** Not empty, and with no opening brace or marker at the start and no opening brace at the end. */
  predicate Guarded(text: MarkedText) {
    text != [] && PlainChar(text[0]) && EndsSafely(text)
  }

  predicate Closing(s: string, i: nat) {
    i + 2 <= |s| && s[i] == '}' && s[i + 1] == '}'
  }

  /** The first pair of closing braces, with no line break before it. */
  predicate ClosesAt(s: string, n: nat) {
    Closing(s, n) && '\n' !in s[..n] && forall i :: 0 <= i < n ==> !Closing(s, i)
  }

  /** The shortest match of the regular expression ends with the first pair of closing braces. */
  lemma {:induction false} CloseAtExactly(s: string, n: nat)
    ensures CloseAt(s) == Some(n) <==> ClosesAt(s, n)
  {
    if |s| >= 2 && !Closing(s, 0) && s[0] != '\n' && n > 0 {
      var rest := s[1..];
      CloseAtExactly(rest, n - 1);
      if n <= |s| {
        assert s[..n] == [s[0]] + rest[..n - 1];
      }
      assert forall i :: 0 < i <= n ==> Closing(s, i) == Closing(rest, i - 1);
      assert forall i :: 0 <= i < n ==> Closing(rest, i) == Closing(s, i + 1);
    }
  }

  /** Braces around nothing are a match without an entity, which the program cuts out of range. */
  lemma EmptyMarkerIsOutOfRange(paths: EntityConfig.Paths, collection: string, rest: string)
    ensures ReplaceMarkers(paths, collection, "{{}}" + rest) == Err(SliceOutOfRange)
  {
    var s := "{{}}" + rest;
    assert s[2..][0] == '}' && s[2..][1] == '}';
  }

  lemma {:induction false} CloseAtEntity(e: string, rest: string)
    requires SafeEntity(e)
    ensures CloseAt(e + ".}}" + rest) == Some(|e| + 1)
  {
    var s := e + ".}}" + rest;
    if e == "" {
      assert s[1..] == "}}" + rest && s[0] == '.' && s[1] == '}';
    } else {
      assert s[1..] == e[1..] + ".}}" + rest;
      assert !HasPair(e[1..], '}') by {
        assert forall i :: 0 <= i < |e[1..]| ==> e[1..][i] == e[i + 1];
      }
      CloseAtEntity(e[1..], rest);
      assert s[0] == e[0] && s[1] == if |e| > 1 then e[1] else '.';
    }
  }

  /** The matcher reads a marker back. */
  lemma MarkerMatches(e: string, rest: string)
    requires SafeEntity(e)
    ensures var s := "{{" + e + ".}}" + rest;
            && MatchLength(s) == Some(|e| + 5)
            && s[2..|e| + 2] == e && s[|e| + 5..] == rest && s != ""
  {
    var s := "{{" + e + ".}}" + rest;
    assert s[2..] == e + ".}}" + rest;
    CloseAtEntity(e, rest);
    assert s[0] == '{' && s[1] == '{';
  }

  /** Nothing else in a clean text is mistaken for a marker. */
  lemma CharNeverMatches(text: MarkedText)
    requires Clean(text) && text != [] && text[0].Ch?
    ensures var s := Fill(Marker(), text);
            s != "" && s[0] == text[0].c && s[1..] == Fill(Marker(), text[1..]) && MatchLength(s).None?
  {
  }

  /** The text with every marker resolved, or the first error. */
  function Resolve(paths: EntityConfig.Paths, collection: string, text: MarkedText): Result<string, MongoError> {
    if text == [] then Ok("")
    else
      var first :- match text[0]
        case Ch(c) => Ok([c])
        case Gap(e) => PathPrefix(paths, collection, e);
      var rest :- Resolve(paths, collection, text[1..]);
      Ok(first + rest)
  }

  lemma {:induction false} ReplaceIsResolve(paths: EntityConfig.Paths, collection: string, text: MarkedText)
    requires Clean(text)
    ensures ReplaceMarkers(paths, collection, Fill(Marker(), text)) == Resolve(paths, collection, text)
  {
    if text != [] {
      ReplaceIsResolve(paths, collection, text[1..]);
      match text[0]
      case Ch(c) =>
        CharNeverMatches(text);
      case Gap(e) =>
        MarkerMatches(e, Fill(Marker(), text[1..]));
    }
  }

  lemma {:induction false} MatchesIffMarked(text: MarkedText)
    requires Clean(text)
    ensures MatchString(Fill(Marker(), text)) <==> Gaps(text) != []
  {
    if text != [] {
      MatchesIffMarked(text[1..]);
      match text[0]
      case Ch(c) =>
        CharNeverMatches(text);
      case Gap(e) =>
        MarkerMatches(e, Fill(Marker(), text[1..]));
    }
  }

  /** The path of an entity, where there is one. */
  function PathOf(paths: EntityConfig.Paths, collection: string): string -> string {
    (e: string) => match PathPrefix(paths, collection, e) case Ok(path) => path case Err(_) => ""
  }

  predicate AllReachable(paths: EntityConfig.Paths, collection: string, entities: seq<string>) {
    forall i :: 0 <= i < |entities| ==> PathPrefix(paths, collection, entities[i]).Ok?
  }

  lemma AllReachableAppend(paths: EntityConfig.Paths, collection: string, a: seq<string>, b: seq<string>)
    ensures AllReachable(paths, collection, a + b) <==>
            AllReachable(paths, collection, a) && AllReachable(paths, collection, b)
  {
    assert forall i :: 0 <= i < |a| ==> a[i] == (a + b)[i];
    assert forall i :: 0 <= i < |b| ==> b[i] == (a + b)[i + |a|];
  }

  lemma {:induction false} ResolveIsFill(paths: EntityConfig.Paths, collection: string, text: MarkedText)
    ensures Resolve(paths, collection, text).Ok? <==> AllReachable(paths, collection, Gaps(text))
    ensures Resolve(paths, collection, text).Ok? ==>
              Resolve(paths, collection, text) == Ok(Fill(PathOf(paths, collection), text))
  {
    if text != [] {
      ResolveIsFill(paths, collection, text[1..]);
      if text[0].Gap? {
        AllReachableAppend(paths, collection, [text[0].id], Gaps(text[1..]));
        assert [text[0].id][0] == text[0].id;
      } else {
        assert Gaps(text) == Gaps(text[1..]);
      }
    }
  }

  // ---------------------------------------------------------------- building clean texts

  lemma {:induction false} CleanAppend(a: MarkedText, b: MarkedText)
    requires Clean(a) && Clean(b) && (EndsSafely(a) || b == [] || PlainChar(b[0]))
    ensures Clean(a + b)
  {
    if a == [] {
      assert a + b == b;
    } else {
      assert (a + b)[1..] == a[1..] + b;
      PrecedesAppend(a[0], a[1..], b);
      hide Precedes, PlainChar;
      CleanAppend(a[1..], b);
    }
  }

  lemma PrecedesAppend(first: Token<string>, rest: MarkedText, b: MarkedText)
    requires Precedes(first, rest)
    requires rest == [] && first == Ch('{') ==> b == [] || PlainChar(b[0])
    ensures Precedes(first, rest + b)
  {
    assert rest == [] ==> rest + b == b;
  }

  lemma {:induction false} CleanChars(s: string)
    requires !HasPair(s, '{')
    ensures Clean(Chars(s))
  {
    if s != "" {
      assert Chars<string>(s)[1..] == Chars(s[1..]);
      assert !HasPair(s[1..], '{') by {
        assert forall i :: 0 <= i < |s[1..]| ==> s[1..][i] == s[i + 1];
      }
      CleanChars(s[1..]);
      if |s| > 1 && s[0] == '{' {
        assert s[0 + 1] != '{';
      }
    }
  }

  /** An opening brace of a template is followed by another literal character. */
  predicate SafePieces(ps: seq<Piece>) {
    ps == []
    || ((ps[0] == Lit('{') ==> |ps| > 1 && ps[1].Lit? && ps[1].c != '{') && SafePieces(ps[1..]))
  }

  predicate SafeTemplate(t: Template) {
    && SoundTemplate(t)
    && Pieces(t.mapping) != [] && Pieces(t.mapping)[0] != Lit('{')
    && SafePieces(Pieces(t.mapping))
  }

  predicate AllGuarded(args: seq<MarkedText>) {
    forall i :: 0 <= i < |args| ==> Clean(args[i]) && Guarded(args[i])
  }

  lemma {:induction false} SubstituteClean(ps: seq<Piece>, args: seq<MarkedText>)
    requires HolesBelow(ps, |args|) && SafePieces(ps) && AllGuarded(args)
    ensures var text := Substitute(ps, AsToken<string>, args);
            && Clean(text) && EndsSafely(text)
            && (ps != [] ==> text != [] && (if ps[0].Lit? then text[0] == Ch(ps[0].c) else PlainChar(text[0])))
  {
    if ps != [] {
      HolesBelowRest(ps, |args|);
      SubstituteClean(ps[1..], args);
      var rest := Substitute(ps[1..], AsToken<string>, args);
      match ps[0]
      case Lit(c) =>
        assert [AsToken<string>(c)][1..] == [];
        CleanAppend([AsToken<string>(c)], rest);
      case Hole(d) =>
        assert Decimal(d) == Holes(ps)[0];
        CleanAppend(args[Decimal(d)], rest);
    }
  }

  lemma ComposeClean(t: Template, args: seq<MarkedText>)
    requires SafeTemplate(t) && AcceptsCount(t, |args|) && AllGuarded(args)
    ensures Clean(Compose(t, args)) && Guarded(Compose(t, args))
  {
    var n := t.argsCount;
    assert AllGuarded(args[..n]);
    SubstituteClean(Pieces(t.mapping), args[..n]);
    var body := Substitute(Pieces(t.mapping), AsToken<string>, args[..n]);
    if |args| > n {
      assert !HasPair(" = ", '{');
      CleanChars(" = ");
      assert Clean(args[n]) && Guarded(args[n]);
      CleanAppend(Chars(" = "), args[n]);
      CleanAppend(body, Chars(" = ") + args[n]);
      assert body + (Chars(" = ") + args[n]) == Compose(t, args);
    } else {
      assert body + [] == body;
    }
  }

  lemma {:induction false} JoinClean(texts: seq<MarkedText>, separator: string)
    requires forall i :: 0 <= i < |texts| ==> Clean(texts[i]) && EndsSafely(texts[i])
    requires '{' !in separator
    ensures Clean(Join(texts, Chars(separator))) && EndsSafely(Join(texts, Chars(separator)))
    ensures |texts| > 0 && Guarded(texts[0]) ==>
              Join(texts, Chars(separator)) != [] && PlainChar(Join(texts, Chars(separator))[0])
  {
    if |texts| > 1 {
      JoinClean(texts[1..], separator);
      var rest := Join(texts[1..], Chars(separator));
      CleanChars(separator);
      assert EndsSafely(Chars(separator));
      CleanAppend(texts[0], Chars(separator));
      CleanAppend(texts[0] + Chars(separator), rest);
    }
  }
}
