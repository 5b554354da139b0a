/** Text with named gaps: the common shape of SQL text with placeholders and of
    Mongo filters with entity markers. Both are strings in the program; the tokens
    are what proofs use to talk about the gaps. */
module Tokens {

  datatype Token<+I> = Ch(c: char) | Gap(id: I)

  /** Replaces every gap by a text. */
  function Fill<I>(fill: I -> string, tokens: seq<Token<I>>): string {
    if tokens == [] then ""
    else (match tokens[0] case Ch(c) => [c] case Gap(i) => fill(i)) + Fill(fill, tokens[1..])
  }

  function FillEach<I>(fill: I -> string, texts: seq<seq<Token<I>>>): (r: seq<string>)
    ensures |r| == |texts|
    ensures forall i :: 0 <= i < |r| ==> r[i] == Fill(fill, texts[i])
  {
    seq(|texts|, i requires 0 <= i < |texts| => Fill(fill, texts[i]))
  }

  function Chars<I>(s: string): (r: seq<Token<I>>)
    ensures |r| == |s|
    ensures forall i :: 0 <= i < |s| ==> r[i] == Ch(s[i])
  {
    seq(|s|, i requires 0 <= i < |s| => Ch(s[i]))
  }

  lemma FillEachCons<I>(fill: I -> string, first: seq<Token<I>>, rest: seq<seq<Token<I>>>)
    ensures FillEach(fill, [first] + rest) == [Fill(fill, first)] + FillEach(fill, rest)
  {
  }

  lemma FillGap<I>(fill: I -> string, i: I)
    ensures Fill(fill, [Gap(i)]) == fill(i)
  {
  }

  /** The gaps in reading order. */
  function Gaps<I>(tokens: seq<Token<I>>): seq<I> {
    if tokens == [] then []
    else (match tokens[0] case Ch(_) => [] case Gap(i) => [i]) + Gaps(tokens[1..])
  }

  lemma {:induction false} FillAppend<I>(fill: I -> string, a: seq<Token<I>>, b: seq<Token<I>>)
    ensures Fill(fill, a + b) == Fill(fill, a) + Fill(fill, b)
  {
    if a == [] {
      assert a + b == b;
    } else {
      assert (a + b)[1..] == a[1..] + b;
      FillAppend(fill, a[1..], b);
    }
  }

  lemma {:induction false} FillChars<I>(fill: I -> string, s: string)
    ensures Fill(fill, Chars<I>(s)) == s
  {
    if s != "" {
      assert Chars<I>(s)[1..] == Chars<I>(s[1..]);
      FillChars<I>(fill, s[1..]);
      assert s == [s[0]] + s[1..];
    }
  }

  lemma {:induction false} GapsAppend<I>(a: seq<Token<I>>, b: seq<Token<I>>)
    ensures Gaps(a + b) == Gaps(a) + Gaps(b)
  {
    if a == [] {
      assert a + b == b;
    } else {
      assert (a + b)[1..] == a[1..] + b;
      GapsAppend(a[1..], b);
    }
  }

  lemma {:induction false} GapsChars<I>(s: string)
    ensures Gaps(Chars<I>(s)) == []
  {
    if s != "" {
      assert Chars<I>(s)[1..] == Chars<I>(s[1..]);
      GapsChars<I>(s[1..]);
    }
  }

  /** strings.Join, on any kind of text. */
  function Join<T>(texts: seq<seq<T>>, separator: seq<T>): seq<T> {
    if texts == [] then []
    else if |texts| == 1 then texts[0]
    else texts[0] + separator + Join(texts[1..], separator)
  }

  lemma {:induction false} FillJoin<I>(fill: I -> string, texts: seq<seq<Token<I>>>, separator: string)
    ensures Fill(fill, Join(texts, Chars(separator))) == Join(FillEach(fill, texts), separator)
  {
    if |texts| > 1 {
      FillAppend(fill, texts[0] + Chars(separator), Join(texts[1..], Chars(separator)));
      FillAppend(fill, texts[0], Chars(separator));
      FillChars<I>(fill, separator);
      FillJoin(fill, texts[1..], separator);
      assert FillEach(fill, texts)[1..] == FillEach(fill, texts[1..]);
    }
  }
}
