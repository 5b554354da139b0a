/** How a template is read: where its placeholders are and which numbers they have
    (internal/pkg/data/operands.go). */
module TemplateReading {
  import opened Templates

  /** The template that was read. */
  function Source(ps: seq<Piece>): string {
    if ps == [] then ""
    else (match ps[0] case Lit(c) => [c] case Hole(d) => "$" + d) + Source(ps[1..])
  }

  predicate AllDigits(s: string) {
    forall i :: 0 <= i < |s| ==> IsDigit(s[i])
  }

  /** The piece is a literal digit. */
  predicate LiteralDigit(ps: seq<Piece>, i: nat) {
    i < |ps| && ps[i].Lit? && IsDigit(ps[i].c)
  }

  /** Every placeholder has all of the digits that follow its dollar sign, and no dollar sign before a digit is a
      literal. */
  predicate LeftmostLongest(ps: seq<Piece>) {
    forall i :: 0 <= i < |ps| ==>
      && (ps[i].Hole? ==> ps[i].digits != "" && AllDigits(ps[i].digits) && !LiteralDigit(ps, i + 1))
      && (ps[i] == Lit('$') ==> !LiteralDigit(ps, i + 1))
  }

  lemma {:induction false} DigitRunOf(digits: string, rest: string)
    requires AllDigits(digits) && (rest == "" || !IsDigit(rest[0]))
    ensures DigitRun(digits + rest) == |digits|
  {
    if digits == "" {
      assert digits + rest == rest;
    } else {
      assert (digits + rest)[1..] == digits[1..] + rest;
      DigitRunOf(digits[1..], rest);
    }
  }

  lemma {:induction false} DigitRunIsDigits(s: string)
    ensures AllDigits(s[..DigitRun(s)])
    ensures DigitRun(s) < |s| ==> !IsDigit(s[DigitRun(s)])
  {
    if s != "" && IsDigit(s[0]) {
      DigitRunIsDigits(s[1..]);
      assert s[..DigitRun(s)] == [s[0]] + s[1..][..DigitRun(s[1..])];
    }
  }

  lemma LeftmostLongestRest(ps: seq<Piece>)
    requires ps != []
    ensures LeftmostLongest(ps) <==>
            && LeftmostLongest(ps[1..])
            && (ps[0].Hole? ==> ps[0].digits != "" && AllDigits(ps[0].digits) && !LiteralDigit(ps[1..], 0))
            && (ps[0] == Lit('$') ==> !LiteralDigit(ps[1..], 0))
  {
    var rest := ps[1..];
    assert forall i: nat :: LiteralDigit(rest, i) <==> LiteralDigit(ps, i + 1);
    assert forall i :: 0 < i < |ps| ==> ps[i] == rest[i - 1];
    assert forall i :: 0 <= i < |rest| ==> rest[i] == ps[i + 1];
  }

  /** What the source of pieces starts with. */
  lemma SourceStarts(ps: seq<Piece>)
    ensures ps != [] ==> Source(ps) != ""
    ensures Source(ps) != "" && IsDigit(Source(ps)[0]) <==> LiteralDigit(ps, 0)
  {
  }

  lemma {:induction false} PiecesAreLeftmostLongest(s: string)
    ensures Source(Pieces(s)) == s && LeftmostLongest(Pieces(s))
    decreases |s|
  {
    if s != "" {
      hide LeftmostLongest, Source, Pieces;
      if s[0] == '$' && DigitRun(s[1..]) > 0 {
        PiecesAreLeftmostLongest(s[1 + DigitRun(s[1..])..]);
        HoleIsLongest(s);
      } else {
        PiecesAreLeftmostLongest(s[1..]);
        LiteralIsNoHole(s);
      }
    }
  }

  lemma Sliced(s: string, n: nat)
    requires 1 <= n <= |s| && s[0] == '$'
    ensures "$" + s[1..n] + s[n..] == s
    ensures s[1..][..n - 1] == s[1..n]
    ensures n < |s| ==> s[1..][n - 1] == s[n..][0]
  {
  }

  lemma HoleIsLongest(s: string)
    requires s != "" && s[0] == '$' && DigitRun(s[1..]) > 0
    requires var rest := s[1 + DigitRun(s[1..])..]; Source(Pieces(rest)) == rest && LeftmostLongest(Pieces(rest))
    ensures Source(Pieces(s)) == s && LeftmostLongest(Pieces(s))
  {
    var n := 1 + DigitRun(s[1..]);
    var digits, rest := s[1..n], s[n..];
    DigitRunIsDigits(s[1..]);
    var ps, more := Pieces(s), Pieces(rest);
    assert ps == [Hole(digits)] + more && ps[1..] == more;
    hide Pieces, LeftmostLongest, DigitRun;
    assert Source(ps) == "$" + digits + rest;
    Sliced(s, n);
    SourceStarts(more);
    hide Source;
    LeftmostLongestRest(ps);
  }

  lemma LiteralIsNoHole(s: string)
    requires s != "" && (s[0] != '$' || DigitRun(s[1..]) == 0)
    requires Source(Pieces(s[1..])) == s[1..] && LeftmostLongest(Pieces(s[1..]))
    ensures Source(Pieces(s)) == s && LeftmostLongest(Pieces(s))
  {
    var rest := s[1..];
    assert Pieces(s) == [Lit(s[0])] + Pieces(rest) && Pieces(s)[1..] == Pieces(rest);
    assert Source(Pieces(s)) == [s[0]] + rest == s;
    assert s[0] == '$' && rest != "" ==> !IsDigit(rest[0]);
    SourceStarts(Pieces(rest));
    hide Pieces, Source, DigitRun;
    LeftmostLongestRest(Pieces(s));
  }

  lemma {:induction false} LeftmostLongestArePieces(ps: seq<Piece>)
    requires LeftmostLongest(ps)
    ensures Pieces(Source(ps)) == ps
  {
    if ps != [] {
      LeftmostLongestRest(ps);
      LeftmostLongestArePieces(ps[1..]);
      SourceStarts(ps[1..]);
      assert ps == [ps[0]] + ps[1..];
      var rest := Source(ps[1..]);
      match ps[0]
      case Lit(c) =>
        assert Source(ps) == [c] + rest;
        hide Source;
        LiteralIsRead(c, rest);
      case Hole(d) =>
        assert Source(ps) == "$" + d + rest;
        hide Source;
        HoleIsRead(d, rest);
    }
  }

  lemma LiteralIsRead(c: char, rest: string)
    requires c == '$' ==> rest == "" || !IsDigit(rest[0])
    ensures Pieces([c] + rest) == [Lit(c)] + Pieces(rest)
  {
    assert ([c] + rest)[1..] == rest;
  }

  lemma HoleIsRead(d: string, rest: string)
    requires d != "" && AllDigits(d) && (rest == "" || !IsDigit(rest[0]))
    ensures Pieces("$" + d + rest) == [Hole(d)] + Pieces(rest)
  {
    DigitRunOf(d, rest);
    AfterDollar(d, rest);
    var s := "$" + d + rest;
    hide DigitRun, AllDigits;
    assert Pieces(s) == [Hole(s[1..1 + |d|])] + Pieces(s[1 + |d|..]);
  }

  lemma AfterDollar(d: string, rest: string)
    ensures var s := "$" + d + rest;
            s[0] == '$' && s[1..] == d + rest && s[1..1 + |d|] == d && s[1 + |d|..] == rest
  {
  }

  /** A template is read in one way only: the pieces are those that spell it and whose placeholders start as
      early and reach as far as they can. */
  lemma PiecesExactly(s: string, ps: seq<Piece>)
    ensures ps == Pieces(s) <==> Source(ps) == s && LeftmostLongest(ps)
  {
    PiecesAreLeftmostLongest(s);
    if Source(ps) == s && LeftmostLongest(ps) {
      LeftmostLongestArePieces(ps);
    }
  }

  function Power10(n: nat): nat {
    if n == 0 then 1 else 10 * Power10(n - 1)
  }

  /** The first digit counts for as many tens as digits follow. */
  lemma {:induction false} DecimalByFirstDigit(first: char, digits: string)
    requires IsDigit(first) && AllDigits(digits)
    ensures Decimal([first]) == first as nat - '0' as nat
    ensures Decimal([first] + digits) == Decimal([first]) * Power10(|digits|) + Decimal(digits)
  {
    assert [first][..0] == "";
    if digits == "" {
      assert [first] + digits == [first];
    } else {
      var n := |digits| - 1;
      assert ([first] + digits)[..|digits|] == [first] + digits[..n] && ([first] + digits)[|digits|] == digits[n];
      DecimalByFirstDigit(first, digits[..n]);
      var last := digits[n] as nat - '0' as nat;
      assert Decimal([first] + digits) == 10 * Decimal([first] + digits[..n]) + last;
      assert Decimal(digits) == 10 * Decimal(digits[..n]) + last;
      assert Power10(|digits|) == 10 * Power10(n);
      hide Decimal, Power10;
      Tenfold(Decimal([first]), Power10(n));
    }
  }

  lemma Tenfold(d: nat, p: nat)
    ensures 10 * (d * p) == d * (10 * p)
  {
  }

  // ---------------------------------------------------------------- literal text

  function Literals(s: string): (r: seq<Piece>)
    ensures |r| == |s|
  {
    if s == "" then [] else [Lit(s[0])] + Literals(s[1..])
  }

  /** No dollar sign stands before a digit. */
  predicate NoHole(s: string) {
    forall i :: 0 <= i < |s| - 1 && s[i] == '$' ==> !IsDigit(s[i + 1])
  }

  /** No placeholder starts where the texts meet. */
  predicate NoHoleBetween(s: string, rest: string) {
    s != "" && s[|s| - 1] == '$' ==> rest == "" || !IsDigit(rest[0])
  }

  lemma {:induction false} PiecesOfLiterals(s: string, rest: string)
    requires NoHole(s) && NoHoleBetween(s, rest)
    ensures Pieces(s + rest) == Literals(s) + Pieces(rest)
  {
    if s == "" {
      assert s + rest == rest && Literals(s) + Pieces(rest) == Pieces(rest);
    } else {
      hide *;
      NoHoleRest(s, rest);
      PiecesOfLiterals(s[1..], rest);
      LiteralThen(s, rest);
    }
  }

  lemma LiteralThen(s: string, rest: string)
    requires s != "" && (s[0] == '$' ==> s[1..] + rest == "" || !IsDigit((s[1..] + rest)[0]))
    requires Pieces(s[1..] + rest) == Literals(s[1..]) + Pieces(rest)
    ensures Pieces(s + rest) == Literals(s) + Pieces(rest)
  {
    hide Pieces, Literals;
    LiteralIsRead(s[0], s[1..] + rest);
    LiteralsCons(s);
    assert s + rest == [s[0]] + (s[1..] + rest);
    assert [Lit(s[0])] + (Literals(s[1..]) + Pieces(rest)) == [Lit(s[0])] + Literals(s[1..]) + Pieces(rest);
  }

  lemma LiteralsCons(s: string)
    requires s != ""
    ensures Literals(s) == [Lit(s[0])] + Literals(s[1..])
  {
  }

  lemma NoHoleRest(s: string, rest: string)
    requires s != "" && NoHole(s) && NoHoleBetween(s, rest)
    ensures NoHole(s[1..]) && NoHoleBetween(s[1..], rest)
    ensures s[0] == '$' ==> s[1..] + rest == "" || !IsDigit((s[1..] + rest)[0])
  {
    var more := s[1..];
    assert forall i :: 0 <= i < |more| ==> more[i] == s[i + 1];
  }

  lemma {:induction false} HolesOfLiterals(s: string, rest: seq<Piece>)
    ensures Holes(Literals(s) + rest) == Holes(rest)
  {
    if s == "" {
      assert Literals(s) + rest == rest;
    } else {
      assert (Literals(s) + rest)[1..] == Literals(s[1..]) + rest;
      HolesOfLiterals(s[1..], rest);
    }
  }

  lemma LiteralSubstituted<T>(c: char, rest: seq<Piece>, lit: char -> T, args: seq<seq<T>>)
    requires HolesBelow(rest, |args|)
    ensures HolesBelow([Lit(c)] + rest, |args|)
    ensures Substitute([Lit(c)] + rest, lit, args) == [lit(c)] + Substitute(rest, lit, args)
  {
    var ps := [Lit(c)] + rest;
    assert ps[0] == Lit(c) && ps[1..] == rest;
  }

  lemma HoleSubstituted<T>(d: string, rest: seq<Piece>, lit: char -> T, args: seq<seq<T>>)
    requires HolesBelow(rest, |args|) && Decimal(d) < |args|
    ensures HolesBelow([Hole(d)] + rest, |args|)
    ensures Substitute([Hole(d)] + rest, lit, args) == args[Decimal(d)] + Substitute(rest, lit, args)
  {
    var ps := [Hole(d)] + rest;
    assert ps[0] == Hole(d) && ps[1..] == rest;
  }

  lemma {:induction false} LiteralsSubstituted(s: string, rest: seq<Piece>, lit: char -> char, args: seq<string>)
    requires HolesBelow(rest, |args|) && forall c :: lit(c) == c
    ensures HolesBelow(Literals(s) + rest, |args|)
    ensures Substitute(Literals(s) + rest, lit, args) == s + Substitute(rest, lit, args)
  {
    HolesOfLiterals(s, rest);
    hide HolesBelow, Substitute;
    var same := Substitute(rest, lit, args);
    if s == "" {
      assert Literals(s) + rest == rest && s + same == same;
    } else {
      var tail := Literals(s[1..]) + rest;
      LiteralsSubstituted(s[1..], rest, lit, args);
      LiteralSubstituted(s[0], tail, lit, args);
      assert Literals(s) + rest == [Lit(s[0])] + tail;
      assert [s[0]] + (s[1..] + same) == s + same;
    }
  }
}
