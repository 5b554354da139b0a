/** Placeholders without numbers: the i-th `?` of a statement stands for its i-th parameter exactly when no
    call prints operands that hold constants out of order. */
module SqlPositions {
  import opened Tokens
  import opened QueryAst
  import opened Templates
  import opened TemplateTheorems
  import opened SqlTranslator
  import opened SqlStructure
  import opened SqlPlaceholders

  function Range(first: nat, count: nat): seq<nat> {
    seq(count, i requires 0 <= i => first + i)
  }

  function Concat<T>(parts: seq<seq<T>>): seq<T> {
    if parts == [] then [] else parts[0] + Concat(parts[1..])
  }

  function EachGaps(texts: seq<seq<Token<nat>>>): (r: seq<seq<nat>>)
    ensures |r| == |texts| && forall i :: 0 <= i < |r| ==> r[i] == Gaps(texts[i])
  {
    seq(|texts|, i requires 0 <= i < |texts| => Gaps(texts[i]))
  }

  predicate Below(numbers: seq<nat>, n: nat) {
    forall i :: 0 <= i < |numbers| ==> numbers[i] < n
  }

  /** The texts picked by a list of placeholder numbers. */
  function Picked<T>(holes: seq<nat>, texts: seq<T>): (r: seq<T>)
    requires Below(holes, |texts|)
    ensures |r| == |holes|
  {
    seq(|holes|, i requires 0 <= i < |holes| => texts[holes[i]])
  }

  lemma PickedCons<T>(hole: nat, holes: seq<nat>, texts: seq<seq<T>>)
    requires hole < |texts| && Below(holes, |texts|)
    ensures Concat(Picked([hole] + holes, texts)) == texts[hole] + Concat(Picked(holes, texts))
  {
    assert Picked([hole] + holes, texts) == [texts[hole]] + Picked(holes, texts);
  }

  // ---------------------------------------------------------------- consecutive numbers

  /** The sum of the widths before the k-th one. */
  function Offset(widths: seq<nat>, k: nat): nat
    requires k <= |widths|
  {
    if k == 0 then 0 else widths[0] + Offset(widths[1..], k - 1)
  }

  lemma {:induction false} OffsetNext(widths: seq<nat>, k: nat)
    requires k < |widths|
    ensures Offset(widths, k + 1) == Offset(widths, k) + widths[k]
  {
    if k > 0 {
      OffsetNext(widths[1..], k - 1);
    }
  }

  lemma {:induction false} OffsetGrows(widths: seq<nat>, j: nat, k: nat)
    requires j <= k <= |widths|
    ensures Offset(widths, j) <= Offset(widths, k)
    ensures j < k ==> Offset(widths, j) + widths[j] <= Offset(widths, k)
    decreases k - j
  {
    if j < k {
      OffsetNext(widths, j);
      OffsetGrows(widths, j + 1, k);
    }
  }

  lemma {:induction false} OffsetFlat(widths: seq<nat>, j: nat, k: nat)
    requires j <= k <= |widths|
    requires forall i :: j <= i < k ==> widths[i] == 0
    ensures Offset(widths, j) == Offset(widths, k)
    decreases k - j
  {
    if j < k {
      OffsetNext(widths, j);
      OffsetFlat(widths, j + 1, k);
    }
  }

  lemma {:induction false} OffsetOfPrefix(widths: seq<nat>, n: nat, k: nat)
    requires k <= n <= |widths|
    ensures Offset(widths[..n], k) == Offset(widths, k)
  {
    if k > 0 {
      assert widths[..n][1..] == widths[1..][..n - 1];
      OffsetOfPrefix(widths[1..], n - 1, k - 1);
    }
  }

  predicate Within(numbers: seq<nat>, first: nat, width: nat) {
    forall i :: 0 <= i < |numbers| ==> first <= numbers[i] < first + width
  }

  /** The numbers of every part lie in the part's own window; the windows follow each other. */
  predicate InWindows(parts: seq<seq<nat>>, widths: seq<nat>, start: nat)
    requires |parts| == |widths|
  {
    forall k :: 0 <= k < |parts| ==> Within(parts[k], start + Offset(widths, k), widths[k])
  }

  /** Every part is its window. */
  predicate FillWindows(parts: seq<seq<nat>>, widths: seq<nat>, start: nat)
    requires |parts| == |widths|
  {
    forall k :: 0 <= k < |parts| ==> parts[k] == Range(start + Offset(widths, k), widths[k])
  }

  lemma RangeAppend(first: nat, a: nat, b: nat)
    ensures Range(first, a) + Range(first + a, b) == Range(first, a + b)
  {
  }

  /** Two neighbouring windows are filled together exactly when each is filled. */
  lemma SplitRange(a: seq<nat>, b: seq<nat>, start: nat, n: nat, m: nat)
    requires Within(a, start, n) && Within(b, start + n, m)
    ensures a + b == Range(start, n + m) <==> a == Range(start, n) && b == Range(start + n, m)
  {
    if a + b == Range(start, n + m) {
      assert forall i :: 0 <= i < |a| ==> a[i] == (a + b)[i] == start + i;
      assert forall i :: 0 <= i < |b| ==> b[i] == (a + b)[|a| + i] == start + |a| + i;
      if |a| > 0 {
        assert a[|a| - 1] == start + |a| - 1;
      }
      if |b| > 0 {
        assert b[0] == start + |a|;
      }
      assert |a| + |b| == n + m && |a| == n;
    }
    RangeAppend(start, n, m);
  }

  lemma WindowsCons(parts: seq<seq<nat>>, widths: seq<nat>, start: nat)
    requires |parts| == |widths| > 0
    ensures InWindows(parts, widths, start) <==>
            Within(parts[0], start, widths[0]) && InWindows(parts[1..], widths[1..], start + widths[0])
    ensures FillWindows(parts, widths, start) <==>
            parts[0] == Range(start, widths[0]) && FillWindows(parts[1..], widths[1..], start + widths[0])
  {
    hide Within;
    assert forall k :: 0 < k < |parts| ==> parts[k] == parts[1..][k - 1] && widths[k] == widths[1..][k - 1];
    assert forall k :: 0 < k < |parts| ==> Offset(widths, k) == widths[0] + Offset(widths[1..], k - 1);
    assert forall k :: 0 <= k < |parts| - 1 ==> parts[1..][k] == parts[k + 1] && widths[1..][k] == widths[k + 1];
    assert forall k :: 0 <= k < |parts| - 1 ==> Offset(widths, k + 1) == widths[0] + Offset(widths[1..], k);
  }

  /** In sequence, windows are filled exactly when each is filled. */
  lemma {:induction false} FillInSequence(parts: seq<seq<nat>>, widths: seq<nat>, start: nat)
    requires |parts| == |widths| && InWindows(parts, widths, start)
    ensures Within(Concat(parts), start, Offset(widths, |widths|))
    ensures Concat(parts) == Range(start, Offset(widths, |widths|)) <==> FillWindows(parts, widths, start)
  {
    if parts != [] {
      hide Within, FillWindows, InWindows;
      WindowsCons(parts, widths, start);
      FillInSequence(parts[1..], widths[1..], start + widths[0]);
      var rest := Concat(parts[1..]);
      var width := Offset(widths[1..], |widths| - 1);
      SplitRange(parts[0], rest, start, widths[0], width);
      WithinBoth(parts[0], rest, start, widths[0], width);
    }
  }

  lemma WithinBoth(a: seq<nat>, b: seq<nat>, start: nat, n: nat, m: nat)
    requires Within(a, start, n) && Within(b, start + n, m)
    ensures Within(a + b, start, n + m)
  {
  }

  // ---------------------------------------------------------------- picked parts

  /** Parts that have a width are picked once each and in order. */
  predicate Increasing(holes: seq<nat>, widths: seq<nat>)
    requires Below(holes, |widths|)
  {
    forall i, j :: 0 <= i < j < |holes| && widths[holes[i]] > 0 && widths[holes[j]] > 0 ==> holes[i] < holes[j]
  }

  /** All parts from the given one on that have a width are picked. */
  predicate Covering(holes: seq<nat>, widths: seq<nat>, low: nat) {
    forall k :: low <= k < |widths| && widths[k] > 0 ==> k in holes
  }

  predicate NoneBelow(holes: seq<nat>, widths: seq<nat>, low: nat)
    requires Below(holes, |widths|)
  {
    forall i :: 0 <= i < |holes| && widths[holes[i]] > 0 ==> holes[i] >= low
  }

  predicate PickedInOrder(holes: seq<nat>, widths: seq<nat>)
    requires Below(holes, |widths|)
  {
    Increasing(holes, widths) && Covering(holes, widths, 0)
  }

  lemma IncreasingRest(holes: seq<nat>, widths: seq<nat>)
    requires holes != [] && Below(holes, |widths|)
    requires Increasing(holes, widths)
    ensures Increasing(holes[1..], widths)
    ensures widths[holes[0]] > 0 ==> NoneBelow(holes[1..], widths, holes[0] + 1)
  {
    assert forall i :: 0 <= i < |holes[1..]| ==> holes[1..][i] == holes[i + 1];
  }

  lemma CoveringRest(hole: nat, rest: seq<nat>, widths: seq<nat>, low: nat)
    requires hole < |widths| && Covering([hole] + rest, widths, low)
    ensures widths[hole] == 0 ==> Covering(rest, widths, low)
    ensures widths[hole] > 0 && low <= hole ==> Covering(rest, widths, hole + 1)
  {
  }

  lemma NothingBetween(hole: nat, rest: seq<nat>, widths: seq<nat>, low: nat)
    requires hole < |widths| && Below(rest, |widths|)
    requires Covering([hole] + rest, widths, low) && NoneBelow(rest, widths, hole + 1)
    ensures forall k :: low <= k < hole ==> widths[k] == 0
  {
  }

  lemma BelowParts(hole: nat, rest: seq<nat>, n: nat)
    requires Below([hole] + rest, n)
    ensures hole < n && Below(rest, n)
  {
    assert ([hole] + rest)[0] == hole;
    assert forall i :: 0 <= i < |rest| ==> rest[i] == ([hole] + rest)[i + 1];
  }

  lemma NoneBelowParts(hole: nat, rest: seq<nat>, widths: seq<nat>, low: nat)
    requires hole < |widths| && Below(rest, |widths|)
    requires Below([hole] + rest, |widths|)
    requires NoneBelow([hole] + rest, widths, low)
    ensures NoneBelow(rest, widths, low)
    ensures widths[hole] > 0 ==> low <= hole
  {
    assert ([hole] + rest)[0] == hole;
    assert forall i :: 0 <= i < |rest| ==> rest[i] == ([hole] + rest)[i + 1];
  }

  lemma PickedNothing(parts: seq<seq<nat>>, widths: seq<nat>, first: nat, low: nat)
    requires low <= |widths| && Covering([], widths, low)
    ensures Offset(widths, low) == Offset(widths, |widths|)
    ensures Concat(Picked([], parts)) == Range(first, 0)
  {
    OffsetFlat(widths, low, |widths|);
  }

  lemma {:induction false} OrderFills(holes: seq<nat>, parts: seq<seq<nat>>, widths: seq<nat>, start: nat, low: nat)
    requires |parts| == |widths| && FillWindows(parts, widths, start) && low <= |widths|
    requires Below(holes, |widths|)
    requires Increasing(holes, widths) && Covering(holes, widths, low) && NoneBelow(holes, widths, low)
    ensures Offset(widths, low) <= Offset(widths, |widths|)
    ensures Concat(Picked(holes, parts)) ==
            Range(start + Offset(widths, low), Offset(widths, |widths|) - Offset(widths, low))
    decreases |holes|
  {
    hide *;
    OffsetGrows(widths, low, |widths|);
    if holes == [] {
      PickedNothing(parts, widths, start + Offset(widths, low), low);
    } else {
      var h, rest := holes[0], holes[1..];
      assert holes == [h] + rest;
      BelowParts(h, rest, |widths|);
      PartOf(parts, widths, start, h);
      IncreasingRest(holes, widths);
      CoveringRest(h, rest, widths, low);
      NoneBelowParts(h, rest, widths, low);
      if widths[h] == 0 {
        PickedCons(h, rest, parts);
        OrderFills(rest, parts, widths, start, low);
        NothingFirst(start + Offset(widths, h), Concat(Picked(rest, parts)));
      } else {
        NothingBetween(h, rest, widths, low);
        OffsetFlat(widths, low, h);
        OrderFills(rest, parts, widths, start, h + 1);
        PickedOneMore(h, rest, parts, widths, start);
      }
    }
  }

  lemma PartOf(parts: seq<seq<nat>>, widths: seq<nat>, start: nat, k: nat)
    requires |parts| == |widths| && FillWindows(parts, widths, start) && k < |parts|
    ensures parts[k] == Range(start + Offset(widths, k), widths[k])
  {
  }

  lemma NothingFirst(first: nat, rest: seq<nat>)
    ensures Range(first, 0) + rest == rest
  {
  }

  lemma PickedOneMore(hole: nat, rest: seq<nat>, parts: seq<seq<nat>>, widths: seq<nat>, start: nat)
    requires hole < |parts| == |widths| && Below(rest, |parts|)
    requires Below([hole] + rest, |parts|)
    requires parts[hole] == Range(start + Offset(widths, hole), widths[hole])
    requires Offset(widths, hole + 1) <= Offset(widths, |widths|)
    requires Concat(Picked(rest, parts)) ==
             Range(start + Offset(widths, hole + 1), Offset(widths, |widths|) - Offset(widths, hole + 1))
    ensures Offset(widths, hole) <= Offset(widths, |widths|)
    ensures Concat(Picked([hole] + rest, parts)) ==
            Range(start + Offset(widths, hole), Offset(widths, |widths|) - Offset(widths, hole))
  {
    hide *;
    OffsetNext(widths, hole);
    PickedCons(hole, rest, parts);
    RangeAppend(start + Offset(widths, hole), widths[hole], Offset(widths, |widths|) - Offset(widths, hole + 1));
  }

  lemma {:induction false} ConcatAt<T>(parts: seq<seq<T>>, j: nat)
    requires j < |parts|
    ensures |Concat(parts[..j])| + |parts[j]| == |Concat(parts[..j + 1])| <= |Concat(parts)|
    ensures Concat(parts)[|Concat(parts[..j])|..|Concat(parts[..j + 1])|] == parts[j]
  {
    assert parts[..j + 1] != [] && parts[..j + 1][1..] == parts[1..][..j];
    if j == 0 {
      assert parts[..0] == [] && parts[..1][1..] == [];
      assert Concat(parts)[..|parts[0]|] == parts[0];
    } else {
      ConcatAt(parts[1..], j - 1);
      assert parts[..j][1..] == parts[1..][..j - 1];
      var n, a, b := |parts[0]|, |Concat(parts[1..][..j - 1])|, |Concat(parts[1..][..j])|;
      assert Concat(parts)[n + a..n + b] == Concat(parts[1..])[a..b];
    }
  }

  lemma {:induction false} ConcatMember<T>(parts: seq<seq<T>>, x: T)
    requires x in Concat(parts)
    ensures exists j :: 0 <= j < |parts| && x in parts[j]
  {
    if x !in parts[0] {
      ConcatMember(parts[1..], x);
      var j :| 0 <= j < |parts[1..]| && x in parts[1..][j];
      assert x in parts[j + 1];
    }
  }

  /** What a filled range says of one picked part: it is consecutive. */
  lemma PickedIsConsecutive(holes: seq<nat>, parts: seq<seq<nat>>, start: nat, total: nat, j: nat)
    requires Below(holes, |parts|)
    requires Concat(Picked(holes, parts)) == Range(start, total) && j < |holes|
    ensures var before := |Concat(Picked(holes, parts)[..j])|;
            parts[holes[j]] == Range(start + before, |parts[holes[j]]|)
  {
    var picked := Picked(holes, parts);
    ConcatAt(picked, j);
    var before := |Concat(picked[..j])|;
    assert picked[j] == parts[holes[j]];
    assert picked[j] == Range(start, total)[before..before + |picked[j]|];
  }

  /** Windows are disjoint. */
  lemma SameWindow(parts: seq<seq<nat>>, widths: seq<nat>, start: nat, j: nat, k: nat, x: nat)
    requires |parts| == |widths| && InWindows(parts, widths, start) && j < |parts| && k < |parts|
    requires x in parts[j] && start + Offset(widths, k) <= x < start + Offset(widths, k) + widths[k]
    ensures j == k
  {
    if j < k {
      OffsetGrows(widths, j, k);
    } else if k < j {
      OffsetGrows(widths, k, j);
    }
  }

  lemma EveryNumberIsPicked(holes: seq<nat>, parts: seq<seq<nat>>, widths: seq<nat>, start: nat, k: nat, x: nat)
    requires |parts| == |widths| && InWindows(parts, widths, start)
    requires Below(holes, |parts|)
    requires Concat(Picked(holes, parts)) == Range(start, Offset(widths, |widths|))
    requires k < |parts| && start + Offset(widths, k) <= x < start + Offset(widths, k) + widths[k]
    ensures x in parts[k] && k in holes
  {
    hide InWindows;
    OffsetGrows(widths, k, |widths|);
    assert Range(start, Offset(widths, |widths|))[x - start] == x;
    var picked := Picked(holes, parts);
    ConcatMember(picked, x);
    var j :| 0 <= j < |picked| && x in picked[j];
    SameWindow(parts, widths, start, holes[j], k, x);
  }

  lemma PickedFills(holes: seq<nat>, parts: seq<seq<nat>>, widths: seq<nat>, start: nat, k: nat)
    requires |parts| == |widths| && InWindows(parts, widths, start)
    requires Below(holes, |parts|)
    requires Concat(Picked(holes, parts)) == Range(start, Offset(widths, |widths|))
    requires k < |parts|
    ensures parts[k] == Range(start + Offset(widths, k), widths[k])
    ensures widths[k] > 0 ==> k in holes
  {
    var low := start + Offset(widths, k);
    assert Within(parts[k], low, widths[k]);
    if widths[k] == 0 {
      WindowHasWidth(parts[k], low, 0);
    } else {
      PickedPartFills(holes, parts, widths, start, k);
    }
  }

  lemma PickedPartFills(holes: seq<nat>, parts: seq<seq<nat>>, widths: seq<nat>, start: nat, k: nat)
    requires |parts| == |widths| && InWindows(parts, widths, start)
    requires Below(holes, |parts|)
    requires Concat(Picked(holes, parts)) == Range(start, Offset(widths, |widths|))
    requires k < |parts| && widths[k] > 0 && Within(parts[k], start + Offset(widths, k), widths[k])
    ensures parts[k] == Range(start + Offset(widths, k), widths[k]) && k in holes
  {
    hide *;
    var low := start + Offset(widths, k);
    EveryNumberIsPicked(holes, parts, widths, start, k, low);
    EveryNumberIsPicked(holes, parts, widths, start, k, low + widths[k] - 1);
    var j :| 0 <= j < |holes| && holes[j] == k;
    PickedIsConsecutive(holes, parts, start, Offset(widths, |widths|), j);
    FromEndToEnd(parts[k], start + |Concat(Picked(holes, parts)[..j])|, low, widths[k]);
  }

  lemma WindowHasWidth(part: seq<nat>, low: nat, width: nat)
    requires Within(part, low, width)
    ensures part != [] ==> width > 0
  {
    if part != [] {
      assert low <= part[0] < low + width;
    }
  }

  lemma FromEndToEnd(part: seq<nat>, first: nat, low: nat, width: nat)
    requires part == Range(first, |part|) && Within(part, low, width) && width > 0
    requires low in part && low + width - 1 in part
    ensures part == Range(low, width)
  {
    var i :| 0 <= i < |part| && part[i] == low;
    var j :| 0 <= j < |part| && part[j] == low + width - 1;
    assert part[0] == first && part[|part| - 1] == first + |part| - 1;
  }

  /** Picked parts fill all windows exactly when each fills its own and they are picked in order. */
  lemma PickedFillExactly(holes: seq<nat>, parts: seq<seq<nat>>, widths: seq<nat>, start: nat)
    requires |parts| == |widths| && InWindows(parts, widths, start)
    requires Below(holes, |parts|)
    ensures Concat(Picked(holes, parts)) == Range(start, Offset(widths, |widths|)) <==>
            FillWindows(parts, widths, start) && PickedInOrder(holes, widths)
  {
    hide InWindows, Range, Concat, Picked, Offset;
    if Concat(Picked(holes, parts)) == Range(start, Offset(widths, |widths|)) {
      forall k | 0 <= k < |parts|
        ensures parts[k] == Range(start + Offset(widths, k), widths[k]) && (widths[k] > 0 ==> k in holes)
      {
        PickedFills(holes, parts, widths, start, k);
      }
      forall i, j | 0 <= i < j < |holes| && widths[holes[i]] > 0 && widths[holes[j]] > 0 ensures holes[i] < holes[j] {
        LaterIsLarger(holes, parts, widths, start, i, j);
      }
    }
    if FillWindows(parts, widths, start) && PickedInOrder(holes, widths) {
      NothingBefore(widths);
      OrderFills(holes, parts, widths, start, 0);
    }
  }

  lemma NothingBefore(widths: seq<nat>)
    ensures Offset(widths, 0) == 0
  {
  }

  lemma LaterIsLarger(holes: seq<nat>, parts: seq<seq<nat>>, widths: seq<nat>, start: nat, i: nat, j: nat)
    requires |parts| == |widths| && FillWindows(parts, widths, start)
    requires Below(holes, |parts|)
    requires Concat(Picked(holes, parts)) == Range(start, Offset(widths, |widths|))
    requires i < j < |holes| && widths[holes[i]] > 0 && widths[holes[j]] > 0
    ensures holes[i] < holes[j]
  {
    var picked := Picked(holes, parts);
    PartStandsAt(holes, parts, widths, start, i);
    PartStandsAt(holes, parts, widths, start, j);
    assert |picked[i]| > 0 by { RangeLength(start + Offset(widths, holes[i]), widths[holes[i]]); }
    hide *;
    ConcatAt(picked, i);
    ConcatGrows(picked, i + 1, j);
    if holes[j] <= holes[i] {
      OffsetGrows(widths, holes[j], holes[i]);
    }
  }

  lemma RangeLength(first: nat, n: nat)
    ensures |Range(first, n)| == n
  {
  }

  /** In a filled range a picked part starts at the offset of its window. */
  lemma FilledWindow(parts: seq<seq<nat>>, widths: seq<nat>, start: nat, k: nat)
    requires |parts| == |widths| && FillWindows(parts, widths, start) && k < |parts|
    ensures parts[k] == Range(start + Offset(widths, k), widths[k])
  {
  }

  lemma PartStandsAt(holes: seq<nat>, parts: seq<seq<nat>>, widths: seq<nat>, start: nat, i: nat)
    requires |parts| == |widths| && FillWindows(parts, widths, start)
    requires Below(holes, |parts|)
    requires Concat(Picked(holes, parts)) == Range(start, Offset(widths, |widths|))
    requires i < |holes| && widths[holes[i]] > 0
    ensures |Concat(Picked(holes, parts)[..i])| == Offset(widths, holes[i])
    ensures parts[holes[i]] == Range(start + Offset(widths, holes[i]), widths[holes[i]])
  {
    hide FillWindows, Picked, Concat, Offset;
    var part := parts[holes[i]];
    FilledWindow(parts, widths, start, holes[i]);
    PickedIsConsecutive(holes, parts, start, Offset(widths, |widths|), i);
    assert part[0] == start + Offset(widths, holes[i]);
  }

  lemma {:induction false} ConcatGrows<T>(parts: seq<seq<T>>, i: nat, j: nat)
    requires i <= j <= |parts|
    ensures |Concat(parts[..i])| <= |Concat(parts[..j])|
    decreases j - i
  {
    if i < j {
      ConcatAt(parts, i);
      ConcatGrows(parts, i + 1, j);
    }
  }

  lemma PickedWithin(holes: seq<nat>, parts: seq<seq<nat>>, widths: seq<nat>, start: nat)
    requires |parts| == |widths| && InWindows(parts, widths, start)
    requires Below(holes, |parts|)
    ensures Within(Concat(Picked(holes, parts)), start, Offset(widths, |widths|))
  {
    var picked := Picked(holes, parts);
    var all: seq<nat> := Concat(picked);
    forall i | 0 <= i < |all| ensures start <= all[i] < start + Offset(widths, |widths|) {
      ConcatMember(picked, all[i]);
      var j :| 0 <= j < |picked| && all[i] in picked[j];
      assert Within(parts[holes[j]], start + Offset(widths, holes[j]), widths[holes[j]]);
      OffsetGrows(widths, holes[j], |widths|);
    }
  }

  lemma WindowsOfPrefix(parts: seq<seq<nat>>, widths: seq<nat>, start: nat, n: nat)
    requires n <= |parts| == |widths|
    ensures InWindows(parts, widths, start) ==> InWindows(parts[..n], widths[..n], start)
    ensures |parts| == n + 1 ==>
              (FillWindows(parts, widths, start) <==>
               FillWindows(parts[..n], widths[..n], start) && parts[n] == Range(start + Offset(widths, n), widths[n]))
  {
    hide Within;
    forall k | 0 <= k <= n ensures Offset(widths[..n], k) == Offset(widths, k) {
      OffsetOfPrefix(widths, n, k);
    }
  }

  // ---------------------------------------------------------------- calls

  lemma {:induction false} GapsOfSubstitute(ps: seq<Piece>, args: seq<seq<Token<nat>>>)
    requires HolesBelow(ps, |args|)
    ensures Gaps(Substitute(ps, AsToken<nat>, args)) == Concat(Picked(Holes(ps), EachGaps(args)))
  {
    hide Decimal;
    if ps != [] {
      HolesBelowRest(ps, |args|);
      GapsOfSubstitute(ps[1..], args);
      var rest := Substitute(ps[1..], AsToken<nat>, args);
      match ps[0]
      case Lit(c) =>
        GapsAppend([AsToken<nat>(c)], rest);
        assert Gaps([AsToken<nat>(c)]) == [] by { assert [AsToken<nat>(c)][1..] == []; }
        assert Holes(ps) == Holes(ps[1..]);
      case Hole(d) =>
        GapsAppend(args[Decimal(d)], rest);
        PickedCons(Decimal(d), Holes(ps[1..]), EachGaps(args));
    }
  }

  /** The template prints the operands that hold parameters once each and in order. */
  predicate KeepsOrder(t: Template, widths: seq<nat>) {
    t.argsCount <= |widths| && HolesBelow(Pieces(t.mapping), t.argsCount) ==>
      PickedInOrder(Holes(Pieces(t.mapping)), widths[..t.argsCount])
  }

  lemma GapsOfCall(t: Template, texts: seq<seq<Token<nat>>>)
    requires WellFormed(t) && AcceptsCount(t, |texts|)
    ensures var n := t.argsCount;
            Gaps(Compose(t, texts)) ==
            Concat(Picked(Holes(Pieces(t.mapping)), EachGaps(texts)[..n]))
            + if |texts| > n then EachGaps(texts)[n] else []
  {
    hide Concat, Pieces, Gaps, Substitute;
    var n := t.argsCount;
    GapsOfSubstitute(Pieces(t.mapping), texts[..n]);
    assert EachGaps(texts[..n]) == EachGaps(texts)[..n];
    var body := Substitute(Pieces(t.mapping), AsToken<nat>, texts[..n]);
    if |texts| > n {
      GapsAppend(body, Chars<nat>(" = ") + texts[n]);
      GapsAppend(Chars<nat>(" = "), texts[n]);
      GapsChars<nat>(" = ");
    } else {
      assert body + [] == body && Gaps(body) + [] == Gaps(body);
    }
  }

  lemma WindowOf(parts: seq<seq<nat>>, widths: seq<nat>, start: nat, k: nat)
    requires |parts| == |widths| && InWindows(parts, widths, start) && k < |parts|
    ensures Within(parts[k], start + Offset(widths, k), widths[k])
  {
  }

  /** The picked parts, and the last one if it is none of them. */
  function PickedAndLast(holes: seq<nat>, parts: seq<seq<nat>>, n: nat): seq<nat>
    requires n <= |parts| && Below(holes, n)
  {
    Concat(Picked(holes, parts[..n])) + if |parts| > n then parts[n] else []
  }

  lemma OffsetSnoc(widths: seq<nat>, width: nat)
    ensures Offset(widths + [width], |widths|) == Offset(widths, |widths|)
    ensures Offset(widths + [width], |widths| + 1) == Offset(widths, |widths|) + width
  {
    var all := widths + [width];
    assert all[..|widths|] == widths;
    OffsetOfPrefix(all, |widths|, |widths|);
    OffsetNext(all, |widths|);
  }

  lemma WindowsSnoc(parts: seq<seq<nat>>, widths: seq<nat>, start: nat, last: seq<nat>, width: nat)
    requires |parts| == |widths|
    ensures InWindows(parts + [last], widths + [width], start) ==>
              InWindows(parts, widths, start) && Within(last, start + Offset(widths, |widths|), width)
    ensures FillWindows(parts + [last], widths + [width], start) <==>
            FillWindows(parts, widths, start) && last == Range(start + Offset(widths, |widths|), width)
  {
    var n, all, allWidths := |parts|, parts + [last], widths + [width];
    OffsetSnoc(widths, width);
    WindowsOfPrefix(all, allWidths, start, n);
    hide *;
    assert all[..n] == parts && allWidths[..n] == widths && all[n] == last && allWidths[n] == width;
    if InWindows(all, allWidths, start) {
      WindowOf(all, allWidths, start, n);
    }
  }

  lemma PickedThenLast(holes: seq<nat>, parts: seq<seq<nat>>, widths: seq<nat>, start: nat, last: seq<nat>, width: nat)
    requires |parts| == |widths| && InWindows(parts + [last], widths + [width], start)
    requires Below(holes, |parts|)
    ensures Within(Concat(Picked(holes, parts)) + last, start, Offset(widths + [width], |widths| + 1))
    ensures Concat(Picked(holes, parts)) + last == Range(start, Offset(widths + [width], |widths| + 1)) <==>
            FillWindows(parts + [last], widths + [width], start) && PickedInOrder(holes, widths)
  {
    hide *;
    OffsetSnoc(widths, width);
    WindowsSnoc(parts, widths, start, last, width);
    PickedFillExactly(holes, parts, widths, start);
    PickedWithin(holes, parts, widths, start);
    var picked := Concat(Picked(holes, parts));
    SplitRange(picked, last, start, Offset(widths, |widths|), width);
    WithinBoth(picked, last, start, Offset(widths, |widths|), width);
  }

  lemma PickedAndLastFillExactly(holes: seq<nat>, parts: seq<seq<nat>>, widths: seq<nat>, start: nat, n: nat)
    requires n <= |parts| == |widths| <= n + 1 && InWindows(parts, widths, start)
    requires Below(holes, n)
    ensures Within(PickedAndLast(holes, parts, n), start, Offset(widths, |widths|))
    ensures PickedAndLast(holes, parts, n) == Range(start, Offset(widths, |widths|)) <==>
            FillWindows(parts, widths, start) && PickedInOrder(holes, widths[..n])
  {
    hide InWindows, FillWindows, PickedInOrder, Within, Range, Offset, Concat, Picked;
    if |parts| > n {
      assert parts == parts[..n] + [parts[n]] && widths == widths[..n] + [widths[n]];
      PickedThenLast(holes, parts[..n], widths[..n], start, parts[n], widths[n]);
    } else {
      assert parts[..n] == parts && widths[..n] == widths;
      PickedFillExactly(holes, parts, widths, start);
      PickedWithin(holes, parts, widths, start);
      assert Concat(Picked(holes, parts)) + [] == Concat(Picked(holes, parts));
    }
  }

  /** A call fills the windows of its operands exactly when each operand does and the template keeps the
      order of those that hold parameters. */
  lemma CallFillsExactly(t: Template, texts: seq<seq<Token<nat>>>, widths: seq<nat>, start: nat)
    requires WellFormed(t) && AcceptsCount(t, |texts|)
    requires |widths| == |texts| && InWindows(EachGaps(texts), widths, start)
    ensures Within(Gaps(Compose(t, texts)), start, Offset(widths, |widths|))
    ensures Gaps(Compose(t, texts)) == Range(start, Offset(widths, |widths|)) <==>
            FillWindows(EachGaps(texts), widths, start) && KeepsOrder(t, widths)
  {
    GapsOfCall(t, texts);
    hide Compose, InWindows, FillWindows, PickedInOrder, Within, Range, EachGaps, Offset, Concat, Picked, Pieces;
    PickedAndLastFillExactly(Holes(Pieces(t.mapping)), EachGaps(texts), widths, start, t.argsCount);
  }

  // ---------------------------------------------------------------- trees

  /** The number of parameters of each operand. */
  function Widths(os: seq<Operand>): (r: seq<nat>)
    ensures |r| == |os| && forall k :: 0 <= k < |os| ==> r[k] == |ParamValues(os[k])|
  {
    seq(|os|, k requires 0 <= k < |os| => |ParamValues(os[k])|)
  }

  /** Every call of the tree keeps the order of its operands that hold parameters. */
  predicate Aligned(templates: TemplateTable, o: Operand)
    decreases o, 1
  {
    o.Call? ==> (o.op in templates ==> KeepsOrder(templates[o.op], Widths(o.args))) && AllAligned(templates, o.args)
  }

  predicate AllAligned(templates: TemplateTable, os: seq<Operand>)
    decreases os, 0
  {
    os == [] || (Aligned(templates, os[0]) && AllAligned(templates, os[1..]))
  }

  /** The placeholders of a tree appear in the order of its parameters, without gaps or repetitions, exactly
      when the tree is aligned. */
  lemma {:induction false} TreeAlignedExactly(setup: Setup, o: Operand, earlier: nat)
    requires Printable(setup.templates, Lower(setup, o, earlier))
    ensures var gaps := Gaps(Print(setup.templates, Lower(setup, o, earlier)));
            && Within(gaps, earlier + 1, |ParamValues(o)|)
            && (gaps == Range(earlier + 1, |ParamValues(o)|) <==> Aligned(setup.templates, o))
    decreases o, 1
  {
    hide Within, KeepsOrder, SoundTemplate, Compose, Range;
    match o
    case Attribute(entity, name) =>
      GapsChars<nat>(TableOf(setup, entity) + "." + name);
      NothingWithin(earlier + 1);
    case Const(c) =>
      OneWithin(earlier + 1);
    case Call(op, args) =>
      TreesAlignedExactly(setup, args, earlier);
      var texts := PrintAll(setup.templates, LowerAll(setup, args, earlier));
      SoundIsWellFormed(setup.templates[op]);
      CallFillsExactly(setup.templates[op], texts, Widths(args), earlier + 1);
  }

  lemma SoundIsWellFormed(t: Template)
    requires SoundTemplate(t)
    ensures WellFormed(t)
  {
  }

  lemma NothingWithin(first: nat)
    ensures Within([], first, 0) && [] == Range(first, 0)
  {
  }

  lemma OneWithin(first: nat)
    ensures Within(Gaps([Gap(first)]), first, 1) && Gaps([Gap(first)]) == Range(first, 1)
  {
    assert [Gap(first)][1..] == [];
  }

  lemma LowerCons(setup: Setup, os: seq<Operand>, earlier: nat)
    requires os != []
    ensures LowerAll(setup, os, earlier) ==
            [Lower(setup, os[0], earlier)] + LowerAll(setup, os[1..], earlier + |ParamValues(os[0])|)
  {
  }

  lemma PrintableCons(templates: TemplateTable, first: SqlExpr, rest: seq<SqlExpr>)
    ensures AllPrintable(templates, [first] + rest) <==> Printable(templates, first) && AllPrintable(templates, rest)
    ensures AllPrintable(templates, [first] + rest) ==>
              EachGaps(PrintAll(templates, [first] + rest)) ==
              [Gaps(Print(templates, first))] + EachGaps(PrintAll(templates, rest))
  {
    hide Printable, Print, Gaps;
    assert ([first] + rest)[1..] == rest;
    if AllPrintable(templates, [first] + rest) {
      assert PrintAll(templates, [first] + rest) == [Print(templates, first)] + PrintAll(templates, rest);
    }
  }

  lemma TreesCons(templates: TemplateTable, os: seq<Operand>)
    requires os != []
    ensures AllAligned(templates, os) <==> Aligned(templates, os[0]) && AllAligned(templates, os[1..])
    ensures |AllParamValues(os)| == |ParamValues(os[0])| + |AllParamValues(os[1..])|
    ensures Widths(os)[0] == |ParamValues(os[0])| && Widths(os)[1..] == Widths(os[1..])
    ensures Offset(Widths(os), |os|) == |ParamValues(os[0])| + Offset(Widths(os[1..]), |os| - 1)
  {
    assert Widths(os)[1..] == Widths(os[1..]);
  }

  lemma NoTrees(setup: Setup, earlier: nat)
    ensures var gaps := EachGaps(PrintAll(setup.templates, LowerAll(setup, [], earlier)));
            InWindows(gaps, Widths([]), earlier + 1) && FillWindows(gaps, Widths([]), earlier + 1)
    ensures AllAligned(setup.templates, []) && Offset(Widths([]), 0) == |AllParamValues([])|
  {
  }

  lemma {:induction false} TreesAlignedExactly(setup: Setup, os: seq<Operand>, earlier: nat)
    requires AllPrintable(setup.templates, LowerAll(setup, os, earlier))
    ensures var gaps := EachGaps(PrintAll(setup.templates, LowerAll(setup, os, earlier)));
            && InWindows(gaps, Widths(os), earlier + 1)
            && (FillWindows(gaps, Widths(os), earlier + 1) <==> AllAligned(setup.templates, os))
    ensures Offset(Widths(os), |os|) == |AllParamValues(os)|
    decreases os, 0
  {
    hide *;
    if os == [] {
      NoTrees(setup, earlier);
    } else {
      var later := earlier + |ParamValues(os[0])|;
      var first, rest := Lower(setup, os[0], earlier), LowerAll(setup, os[1..], later);
      LowerCons(setup, os, earlier);
      PrintableCons(setup.templates, first, rest);
      TreeAlignedExactly(setup, os[0], earlier);
      TreesAlignedExactly(setup, os[1..], later);
      TreesCons(setup.templates, os);
      var gaps := EachGaps(PrintAll(setup.templates, [first] + rest));
      assert gaps[1..] == EachGaps(PrintAll(setup.templates, rest));
      WindowsCons(gaps, Widths(os), earlier + 1);
    }
  }

  // ---------------------------------------------------------------- statements

  lemma {:induction false} GapsOfJoin(texts: seq<seq<Token<nat>>>, separator: string)
    ensures Gaps(Join(texts, Chars(separator))) == Concat(EachGaps(texts))
  {
    if |texts| == 1 {
      assert EachGaps(texts)[1..] == [] && Gaps(texts[0]) + [] == Gaps(texts[0]);
    } else if |texts| > 1 {
      GapsAppend(texts[0] + Chars(separator), Join(texts[1..], Chars(separator)));
      GapsAppend(texts[0], Chars(separator));
      GapsChars<nat>(separator);
      GapsOfJoin(texts[1..], separator);
      assert EachGaps(texts)[1..] == EachGaps(texts[1..]);
    }
  }

  lemma GapsOfSelect(templates: TemplateTable, s: Select)
    requires AllPrintable(templates, s.where)
    ensures Gaps(PrintSelect(templates, s)) == Concat(EachGaps(PrintAll(templates, s.where)))
  {
    var head := Chars<nat>(SelectText(s.from, JoinClauses(s.joins), ""));
    GapsChars<nat>(SelectText(s.from, JoinClauses(s.joins), ""));
    if s.where == [] {
      assert head + [] == head;
    } else {
      var middle := Join(PrintAll(templates, s.where), Chars<nat>(" AND "));
      GapsAppend(head, Chars<nat>(" WHERE (") + middle + Chars<nat>(")"));
      GapsAppend(Chars<nat>(" WHERE (") + middle, Chars<nat>(")"));
      GapsAppend(Chars<nat>(" WHERE ("), middle);
      GapsChars<nat>(" WHERE (");
      GapsChars<nat>(")");
      GapsOfJoin(PrintAll(templates, s.where), " AND ");
    }
  }

  lemma GapsOfSelects(setup: Setup, first: Select, rest: seq<Select>)
    requires AllPrintable(setup.templates, first.where) && PrintableSelects(setup.templates, rest)
    ensures PrintableSelects(setup.templates, [first] + rest)
    ensures Concat(EachGaps(PrintSelects(setup.templates, [first] + rest))) ==
            Concat(EachGaps(PrintAll(setup.templates, first.where))) + Concat(EachGaps(PrintSelects(setup.templates,
                                                                                                    rest)))
  {
    GapsOfSelect(setup.templates, first);
    PrintSelectsCons(setup.templates, first, rest);
    var printed := PrintSelects(setup.templates, [first] + rest);
    assert EachGaps(printed)[1..] == EachGaps(PrintSelects(setup.templates, rest));
  }

  predicate AlignedQueries(templates: TemplateTable, qs: seq<Query>) {
    forall i :: 0 <= i < |qs| ==> AllAligned(templates, qs[i].clauses)
  }

  /** The placeholders of the clauses of one query. */
  lemma ClausesAlignedExactly(setup: Setup, clauses: seq<Operand>, earlier: nat)
    requires AllPrintable(setup.templates, LowerAll(setup, clauses, earlier))
    ensures var gaps := Concat(EachGaps(PrintAll(setup.templates, LowerAll(setup, clauses, earlier))));
            && Within(gaps, earlier + 1, |AllParamValues(clauses)|)
            && (gaps == Range(earlier + 1, |AllParamValues(clauses)|) <==> AllAligned(setup.templates, clauses))
  {
    hide Within, InWindows, FillWindows, AllAligned, Range, PrintAll, LowerAll, AllPrintable, Offset, Concat;
    TreesAlignedExactly(setup, clauses, earlier);
    FillInSequence(EachGaps(PrintAll(setup.templates, LowerAll(setup, clauses, earlier))), Widths(clauses),
                   earlier + 1);
  }

  lemma AlignedCons(templates: TemplateTable, qs: seq<Query>)
    requires qs != []
    ensures AlignedQueries(templates, qs) <==>
            AllAligned(templates, qs[0].clauses) && AlignedQueries(templates, qs[1..])
  {
    hide AllAligned;
    assert forall i :: 0 < i < |qs| ==> qs[i] == qs[1..][i - 1];
    assert forall i :: 0 <= i < |qs[1..]| ==> qs[1..][i] == qs[i + 1];
  }

  lemma NoQueries(setup: Setup, earlier: nat)
    ensures var gaps := Concat(EachGaps(PrintSelects(setup.templates, LowerUnion(setup, [], earlier))));
            Within(gaps, earlier + 1, |UnionValues([])|) && gaps == Range(earlier + 1, |UnionValues([])|)
    ensures AlignedQueries(setup.templates, [])
  {
  }

  lemma {:induction false} SelectsAlignedExactly(setup: Setup, qs: seq<Query>, earlier: nat)
    requires PrintableSelects(setup.templates, LowerUnion(setup, qs, earlier))
    ensures var gaps := Concat(EachGaps(PrintSelects(setup.templates, LowerUnion(setup, qs, earlier))));
            && Within(gaps, earlier + 1, |UnionValues(qs)|)
            && (gaps == Range(earlier + 1, |UnionValues(qs)|) <==> AlignedQueries(setup.templates, qs))
    decreases |qs|
  {
    hide *;
    if qs == [] {
      NoQueries(setup, earlier);
    } else {
      var later := earlier + |QueryValues(qs[0])|;
      var first, rest := LowerQuery(setup, qs[0], earlier), LowerUnion(setup, qs[1..], later);
      LowerQueriesCons(setup, qs, earlier);
      PrintableParts(setup.templates, first, rest);
      ClausesAlignedExactly(setup, qs[0].clauses, earlier);
      SelectsAlignedExactly(setup, qs[1..], later);
      AlignedCons(setup.templates, qs);
      GapsOfSelects(setup, first, rest);
      var here := Concat(EachGaps(PrintAll(setup.templates, first.where)));
      var there := Concat(EachGaps(PrintSelects(setup.templates, rest)));
      SplitRange(here, there, earlier + 1, |QueryValues(qs[0])|, |UnionValues(qs[1..])|);
      WithinBoth(here, there, earlier + 1, |QueryValues(qs[0])|, |UnionValues(qs[1..])|);
    }
  }

  /** The i-th placeholder of a whole statement stands for values[i-1] exactly when the trees of all its
      queries are aligned. */
  lemma PositionalStatementAligned(setup: Setup, qs: seq<Query>)
    requires SoundQueries(setup.templates, qs) && RenderableUnion(setup, qs)
    ensures PrintableSelects(setup.templates, LowerUnion(setup, qs, 0))
    ensures Gaps(PrintUnion(setup.templates, LowerUnion(setup, qs, 0))) == Range(1, |UnionValues(qs)|) <==>
            AlignedQueries(setup.templates, qs)
  {
    hide PrintSelects, RenderableQuery, Gaps, LowerUnion, AlignedQueries, Range;
    QueriesArePrint(setup, qs, 0);
    SelectsAlignedExactly(setup, qs, 0);
    GapsOfJoin(PrintSelects(setup.templates, LowerUnion(setup, qs, 0)), " UNION ");
  }

  // ---------------------------------------------------------------- whole tables of templates

  /** Uses every operand once, in order. */
  predicate InOrder(t: Template) {
    Holes(Pieces(t.mapping)) == Range(0, t.argsCount)
  }

  predicate AllInOrder(templates: TemplateTable) {
    forall op :: op in templates && SoundTemplate(templates[op]) ==> InOrder(templates[op])
  }

  /** The placeholders of a tree appear in the order of its parameters. */
  ghost predicate PrintsInOrder(setup: Setup, o: Operand, earlier: nat) {
    Printable(setup.templates, Lower(setup, o, earlier)) ==>
      Gaps(Print(setup.templates, Lower(setup, o, earlier))) == Range(earlier + 1, |ParamValues(o)|)
  }

  lemma {:induction false} InOrderAligns(setup: Setup, o: Operand, earlier: nat)
    requires AllInOrder(setup.templates) && Printable(setup.templates, Lower(setup, o, earlier))
    ensures Aligned(setup.templates, o)
    decreases o, 1
  {
    hide AllInOrder, SoundTemplate, KeepsOrder;
    if o.Call? {
      AllInOrderAligns(setup, o.args, earlier);
      InOrderKeepsOrder(setup.templates, o.op, Widths(o.args));
    }
  }

  lemma InOrderKeepsOrder(templates: TemplateTable, op: string, widths: seq<nat>)
    requires AllInOrder(templates) && op in templates && SoundTemplate(templates[op])
    ensures KeepsOrder(templates[op], widths)
  {
    var n, holes := templates[op].argsCount, Holes(Pieces(templates[op].mapping));
    hide Pieces, Holes;
    assert holes == Range(0, n);
    forall k | 0 <= k < n ensures k in holes {
      assert holes[k] == k;
    }
  }

  lemma {:induction false} AllInOrderAligns(setup: Setup, os: seq<Operand>, earlier: nat)
    requires AllInOrder(setup.templates) && AllPrintable(setup.templates, LowerAll(setup, os, earlier))
    ensures AllAligned(setup.templates, os)
    decreases os, 0
  {
    hide AllInOrder, Aligned;
    if os != [] {
      var later := earlier + |ParamValues(os[0])|;
      var first, rest := Lower(setup, os[0], earlier), LowerAll(setup, os[1..], later);
      assert ([first] + rest)[1..] == rest;
      InOrderAligns(setup, os[0], earlier);
      AllInOrderAligns(setup, os[1..], later);
    }
  }

  /** n increasing numbers below n are all numbers below n. */
  lemma {:induction false} IncreasingIsRange(holes: seq<nat>, low: nat, high: nat)
    requires |holes| == high - low
    requires forall i :: 0 <= i < |holes| ==> low <= holes[i] < high
    requires forall i, j :: 0 <= i < j < |holes| ==> holes[i] < holes[j]
    ensures holes == Range(low, high - low)
    decreases |holes|
  {
    if holes != [] {
      var n := |holes| - 1;
      IncreasingBelow(holes, low);
      IncreasingIsRange(holes[..n], low, high - 1);
      assert holes == holes[..n] + [holes[n]];
    }
  }

  lemma {:induction false} IncreasingBelow(holes: seq<nat>, low: nat)
    requires holes != [] && forall i :: 0 <= i < |holes| ==> low <= holes[i]
    requires forall i, j :: 0 <= i < j < |holes| ==> holes[i] < holes[j]
    ensures holes[|holes| - 1] >= low + |holes| - 1
  {
    if |holes| > 1 {
      IncreasingBelow(holes[..|holes| - 1], low);
    }
  }

  /** A call with constants for all operands shows in which order its template prints them. */
  lemma ConstantsNeedOrder(setup: Setup, op: string, c: Constant)
    requires op in setup.templates && SoundTemplate(setup.templates[op])
    ensures var o := Call(op, seq(setup.templates[op].argsCount, i => Const(c)));
            Aligned(setup.templates, o) ==> InOrder(setup.templates[op])
  {
    hide Pieces;
    var n, holes := setup.templates[op].argsCount, Holes(Pieces(setup.templates[op].mapping));
    var os := seq(n, i => Const(c));
    assert forall k :: 0 <= k < n ==> os[k] == Const(c) && Widths(os)[k] == 1;
    assert Widths(os)[..n] == Widths(os);
    if PickedInOrder(holes, Widths(os)) {
      IncreasingIsRange(holes, 0, n);
    }
  }

  lemma {:induction false} ConstantsPrint(setup: Setup, c: Constant, n: nat, earlier: nat)
    ensures AllPrintable(setup.templates, LowerAll(setup, seq(n, i => Const(c)), earlier))
    decreases n
  {
    if n > 0 {
      var os := seq(n, i => Const(c));
      assert os[0] == Const(c) && os[1..] == seq(n - 1, i => Const(c));
      ConstantsPrint(setup, c, n - 1, earlier + 1);
      var first, rest := Lower(setup, os[0], earlier), LowerAll(setup, os[1..], earlier + 1);
      assert ([first] + rest)[1..] == rest;
    }
  }

  /** The i-th placeholder of every tree stands for its i-th parameter exactly when every sound template
      prints its operands once and in order. */
  lemma PositionalPlaceholdersAlignedExactly(setup: Setup)
    ensures AllInOrder(setup.templates) <==> forall o, earlier: nat :: PrintsInOrder(setup, o, earlier)
  {
    hide InOrder, SoundTemplate, Aligned, Range, Gaps, Print;
    if AllInOrder(setup.templates) {
      forall o, earlier: nat ensures PrintsInOrder(setup, o, earlier) {
        if Printable(setup.templates, Lower(setup, o, earlier)) {
          InOrderAligns(setup, o, earlier);
          TreeAlignedExactly(setup, o, earlier);
        }
      }
    } else {
      var op :| op in setup.templates && SoundTemplate(setup.templates[op]) && !InOrder(setup.templates[op]);
      var c := Constant("", false);
      var o := Call(op, seq(setup.templates[op].argsCount, i => Const(c)));
      ConstantsPrint(setup, c, setup.templates[op].argsCount, 0);
      assert Printable(setup.templates, Lower(setup, o, 0));
      ConstantsNeedOrder(setup, op, c);
      TreeAlignedExactly(setup, o, 0);
      assert !PrintsInOrder(setup, o, 0);
    }
  }

  /** The shipped template of the product prints its operands in the opposite order: a product keeps the
      order of its parameters exactly when at most one of its two operands holds any. */
  lemma ProductTemplateIsOutOfOrder(widths: seq<nat>)
    requires |widths| == 2
    ensures SoundTemplate(Template(2, "$1 * $0")) && !InOrder(Template(2, "$1 * $0"))
    ensures KeepsOrder(Template(2, "$1 * $0"), widths) <==> widths[0] == 0 || widths[1] == 0
  {
    hide Pieces, Holes;
    var t := Template(2, "$1 * $0");
    InfixPieces('1', '*', '0');
    assert "$1 * $0" == ['$', '1', ' ', '*', ' ', '$', '0'];
    ProductHoles(Pieces("$1 * $0"));
    assert Range(0, 2)[0] == 0;
    SwappedInOrder(widths);
    assert widths[..2] == widths;
  }

  lemma SwappedInOrder(widths: seq<nat>)
    requires |widths| == 2
    ensures PickedInOrder([1, 0], widths) <==> widths[0] == 0 || widths[1] == 0
  {
    assert 1 in [1, 0] && 0 in [1, 0];
    assert [1, 0][0] == 1 && [1, 0][1] == 0;
  }

  lemma ProductHoles(ps: seq<Piece>)
    requires ps == [Hole(['1']), Lit(' '), Lit('*'), Lit(' '), Hole(['0'])]
    ensures Holes(ps) == [1, 0]
  {
    var p4 := [Hole(['0'])];
    var p3 := [Lit(' ')] + p4;
    var p2 := [Lit('*')] + p3;
    var p1 := [Lit(' ')] + p2;
    assert p4[1..] == [] && p3[1..] == p4 && p2[1..] == p3 && p1[1..] == p2 && ps[1..] == p1;
    assert Decimal(['0'][..0]) == 0 && Decimal(['1'][..0]) == 0;
    assert Holes(p4) == [0] && Holes(p3) == [0] && Holes(p2) == [0] && Holes(p1) == [0];
  }
}
