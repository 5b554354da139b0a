/** Which path the index holds for a name that occurs several times: entities of a forest by address, and the
    order in which a crawl reaches them (configs/datastore.go). */
module EntityOrder {
  import opened Results
  import opened EntityConfig

  /** The way down a forest: which root, which of its children, and so on. */
  type Address = seq<nat>

  function At(entities: seq<Entity>, a: Address): Option<Entity>
    decreases |a|
  {
    if a == [] || a[0] >= |entities| then None
    else if |a| == 1 then Some(entities[a[0]])
    else At(entities[a[0]].entities, a[1..])
  }

  /** The names of the entities on the way. */
  function NamesTo(entities: seq<Entity>, a: Address): seq<string>
    requires At(entities, a).Some?
    decreases |a|
  {
    [entities[a[0]].name] + if |a| == 1 then [] else NamesTo(entities[a[0]].entities, a[1..])
  }

  /** An entity comes before its descendants, and these before its later siblings. */
  predicate Before(a: Address, b: Address) {
    if b == [] then false
    else if a == [] then true
    else if a[0] != b[0] then a[0] < b[0]
    else Before(a[1..], b[1..])
  }

  // ---------------------------------------------------------------- the crawl is in order

  function Under(i: nat, addresses: seq<Address>): (r: seq<Address>)
    ensures |r| == |addresses|
  {
    seq(|addresses|, k requires 0 <= k < |addresses| => [i] + addresses[k])
  }

  /** All addresses of a forest whose first root has number `first`, in the order of the crawl. */
  function Order(entities: seq<Entity>, first: nat): seq<Address>
    decreases entities
  {
    if entities == [] then []
    else [[first]] + Under(first, Order(entities[0].entities, 0)) + Order(entities[1..], first + 1)
  }

  /** The address counted from the first root. */
  predicate IsAt(entities: seq<Entity>, first: nat, a: Address) {
    a != [] && a[0] >= first && At(entities, [a[0] - first] + a[1..]).Some?
  }

  /** The entry of the index for the entity at an address. */
  predicate Enters(entities: seq<Entity>, first: nat, a: Address, history: seq<string>,
                   entry: (string, seq<string>))
  {
    IsAt(entities, first, a) &&
    var b := [a[0] - first] + a[1..];
    Called(At(entities, b).value, entry.0) && entry.1 == history + NamesTo(entities, b)
  }

  lemma EntersRoot(entities: seq<Entity>, first: nat, history: seq<string>)
    requires entities != []
    ensures Enters(entities, first, [first], history, (entities[0].MappedName(), history + [entities[0].name]))
  {
    CalledByMappedName(entities[0], entities[0].MappedName());
    assert [0] + [first][1..] == [0];
  }

  lemma EntersChild(entities: seq<Entity>, first: nat, a: Address, history: seq<string>, entry: (string, seq<string>))
    requires entities != [] && Enters(entities[0].entities, 0, a, history + [entities[0].name], entry)
    ensures Enters(entities, first, [first] + a, history, entry)
  {
    var b := [first] + a;
    assert [a[0] - 0] + a[1..] == a;
    assert b[1..] == a && [b[0] - first] + b[1..] == [0] + a;
    var c := [0] + a;
    assert c[0] == 0 && c[1..] == a;
    assert NamesTo(entities, c) == [entities[0].name] + NamesTo(entities[0].entities, a);
    assert history + [entities[0].name] + NamesTo(entities[0].entities, a) == history + NamesTo(entities, c);
  }

  lemma EntersLater(entities: seq<Entity>, first: nat, a: Address, history: seq<string>, entry: (string, seq<string>))
    requires entities != [] && Enters(entities[1..], first + 1, a, history, entry)
    ensures Enters(entities, first, a, history, entry)
  {
    var b, c := [a[0] - first - 1] + a[1..], [a[0] - first] + a[1..];
    assert entities[c[0]] == entities[1..][b[0]] && b[1..] == a[1..] && c[1..] == a[1..];
  }

  /** The crawl lists the entry of every address of its order. */
  lemma {:induction false} ListingFollowsOrder(entities: seq<Entity>, first: nat, history: seq<string>)
    ensures |ListingAll(entities, history)| == |Order(entities, first)|
    ensures forall k :: 0 <= k < |Order(entities, first)| ==>
              Enters(entities, first, Order(entities, first)[k], history, ListingAll(entities, history)[k])
    decreases entities
  {
    if entities != [] {
      var h := history + [entities[0].name];
      var below, later := Order(entities[0].entities, 0), Order(entities[1..], first + 1);
      ListingFollowsOrder(entities[0].entities, 0, h);
      ListingFollowsOrder(entities[1..], first + 1, history);
      EntersRoot(entities, first, history);
      var entries := ListingAll(entities, history);
      var all := Order(entities, first);
      assert all == [[first]] + Under(first, below) + later;
      assert Listing(entities[0], history) == [(entities[0].MappedName(), h)] + ListingAll(entities[0].entities, h);
      assert entries == [(entities[0].MappedName(), h)] + ListingAll(entities[0].entities, h)
                        + ListingAll(entities[1..], history);
      hide Enters, ListingAll, Order;
      forall k | 0 <= k < |all| ensures Enters(entities, first, all[k], history, entries[k]) {
        if k == 0 {
        } else if k <= |below| {
          EntersChild(entities, first, below[k - 1], history, ListingAll(entities[0].entities, h)[k - 1]);
        } else {
          var j := k - 1 - |below|;
          EntersLater(entities, first, later[j], history, ListingAll(entities[1..], history)[j]);
        }
      }
    }
  }

  /** Every address is in the order. */
  lemma {:induction false} OrderIsComplete(entities: seq<Entity>, first: nat, a: Address)
    requires IsAt(entities, first, a)
    ensures a in Order(entities, first)
    decreases entities
  {
    var below, later := Order(entities[0].entities, 0), Order(entities[1..], first + 1);
    var b := [a[0] - first] + a[1..];
    if a[0] > first {
      var c := [a[0] - first - 1] + a[1..];
      assert entities[b[0]] == entities[1..][c[0]] && b[1..] == a[1..] && c[1..] == a[1..];
      OrderIsComplete(entities[1..], first + 1, a);
    } else if |a| == 1 {
      assert a == [first];
    } else {
      assert b[1..] == a[1..] && [a[1..][0] - 0] + a[1..][1..] == a[1..];
      OrderIsComplete(entities[0].entities, 0, a[1..]);
      var k :| 0 <= k < |below| && below[k] == a[1..];
      assert Under(first, below)[k] == a;
    }
  }

  lemma {:induction false} OrderIsSorted(entities: seq<Entity>, first: nat)
    ensures forall k :: 0 <= k < |Order(entities, first)| ==>
              Order(entities, first)[k] != [] && Order(entities, first)[k][0] >= first
    ensures Sorted(Order(entities, first))
    decreases entities
  {
    if entities != [] {
      OrderIsSorted(entities[0].entities, 0);
      OrderIsSorted(entities[1..], first + 1);
      var below, later := Order(entities[0].entities, 0), Order(entities[1..], first + 1);
      UnderIsSorted(first, below);
      var all := [[first]] + Under(first, below);
      assert Order(entities, first) == all + later;
      assert forall k, l :: 0 <= k < |all| && 0 <= l < |later| ==> Before(all[k], later[l]);
    }
  }

  lemma UnderIsSorted(i: nat, addresses: seq<Address>)
    requires Sorted(addresses) && forall k :: 0 <= k < |addresses| ==> addresses[k] != []
    ensures Sorted([[i]] + Under(i, addresses))
    ensures forall k :: 0 <= k <= |addresses| ==> ([[i]] + Under(i, addresses))[k][..1] == [i]
  {
    forall k, l | 0 <= k < l < |addresses| ensures Before([i] + addresses[k], [i] + addresses[l]) {
      assert ([i] + addresses[k])[1..] == addresses[k] && ([i] + addresses[l])[1..] == addresses[l];
    }
    forall k | 0 <= k < |addresses| ensures Before([i], [i] + addresses[k]) {
      assert ([i] + addresses[k])[1..] == addresses[k] && [i][1..] == [];
    }
  }

  // ---------------------------------------------------------------- the index holds the last one

  /** The entity at the address goes by the name, and its root by the other one. */
  predicate Candidate(roots: seq<Entity>, start: string, mapped: string, a: Address) {
    At(roots, a).Some? && Called(roots[a[0]], start) && Called(At(roots, a).value, mapped)
  }

  ghost predicate LastCandidate(roots: seq<Entity>, start: string, mapped: string, a: Address) {
    Candidate(roots, start, mapped, a)
    && forall b :: Candidate(roots, start, mapped, b) ==> b == a || Before(b, a)
  }

  ghost predicate HasCandidate(roots: seq<Entity>, start: string, mapped: string) {
    exists a :: Candidate(roots, start, mapped, a)
  }

  predicate Indexed(roots: seq<Entity>, start: string, mapped: string) {
    start in PathsOf(roots) && mapped in PathsOf(roots)[start]
  }

  lemma EarlierRoots(roots: seq<Entity>, start: string, mapped: string, a: Address)
    requires roots != []
    ensures Candidate(roots[..|roots| - 1], start, mapped, a) <==>
            Candidate(roots, start, mapped, a) && a[0] < |roots| - 1
    ensures Candidate(roots[..|roots| - 1], start, mapped, a) ==>
              NamesTo(roots[..|roots| - 1], a) == NamesTo(roots, a)
  {
  }

  lemma LastRoot(roots: seq<Entity>, a: Address)
    requires roots != []
    ensures a != [] && a[0] == |roots| - 1 && At(roots, a).Some? <==> IsAt([roots[|roots| - 1]], |roots| - 1, a)
    ensures IsAt([roots[|roots| - 1]], |roots| - 1, a) ==>
              var b := [a[0] - (|roots| - 1)] + a[1..];
              && At(roots, a) == At([roots[|roots| - 1]], b)
              && NamesTo(roots, a) == NamesTo([roots[|roots| - 1]], b)
  {
    if a != [] && a[0] >= |roots| - 1 {
      var b := [a[0] - (|roots| - 1)] + a[1..];
      assert b[1..] == a[1..];
    }
  }

  /** The entries of the last root belong to the addresses that start with it, in order. */
  ghost predicate Paired(roots: seq<Entity>, order: seq<Address>, entries: seq<(string, seq<string>)>) {
    && |order| == |entries|
    && (forall k :: 0 <= k < |order| ==> PairedAt(roots, order[k], entries[k]))
    && Sorted(order)
    && HoldsLastRoot(roots, order)
  }

  predicate Sorted(order: seq<Address>) {
    forall k, l :: 0 <= k < l < |order| ==> Before(order[k], order[l])
  }

  ghost predicate HoldsLastRoot(roots: seq<Entity>, order: seq<Address>) {
    forall a :: a != [] && a[0] == |roots| - 1 && At(roots, a).Some? ==> a in order
  }

  predicate PairedAt(roots: seq<Entity>, a: Address, entry: (string, seq<string>)) {
    && a != [] && a[0] == |roots| - 1 && At(roots, a).Some?
    && Called(At(roots, a).value, entry.0) && entry.1 == NamesTo(roots, a)
  }

  lemma LastRootIsPaired(roots: seq<Entity>)
    requires roots != []
    ensures Paired(roots, Order([roots[|roots| - 1]], |roots| - 1), Listing(roots[|roots| - 1], []))
  {
    hide Order, Listing, Sorted, HoldsLastRoot;
    LastRootIsListed(roots);
    OrderIsSorted([roots[|roots| - 1]], |roots| - 1);
    LastRootIsHeld(roots);
  }

  lemma LastRootIsHeld(roots: seq<Entity>)
    requires roots != []
    ensures HoldsLastRoot(roots, Order([roots[|roots| - 1]], |roots| - 1))
  {
    hide Order, At;
    var order := Order([roots[|roots| - 1]], |roots| - 1);
    forall a | a != [] && a[0] == |roots| - 1 && At(roots, a).Some? ensures a in order {
      LastRootHolds(roots, a);
    }
  }

  lemma LastRootHolds(roots: seq<Entity>, a: Address)
    requires roots != [] && a != [] && a[0] == |roots| - 1 && At(roots, a).Some?
    ensures a in Order([roots[|roots| - 1]], |roots| - 1)
  {
    hide Order;
    LastRoot(roots, a);
    OrderIsComplete([roots[|roots| - 1]], |roots| - 1, a);
  }

  lemma LastRootIsListed(roots: seq<Entity>)
    requires roots != []
    ensures var order, entries := Order([roots[|roots| - 1]], |roots| - 1), Listing(roots[|roots| - 1], []);
            |order| == |entries| && forall k :: 0 <= k < |order| ==> PairedAt(roots, order[k], entries[k])
  {
    var n := |roots| - 1;
    var last := [roots[n]];
    var order, entries := Order(last, n), Listing(roots[n], []);
    assert ListingAll(last, []) == entries by {
      assert last[1..] == [] && entries + [] == entries;
    }
    ListingFollowsOrder(last, n, []);
    hide Order, Listing, ListingAll, Enters, PairedAt;
    forall k | 0 <= k < |order| ensures PairedAt(roots, order[k], entries[k]) {
      EntersLastRoot(roots, order[k], entries[k]);
    }
  }

  lemma EntersLastRoot(roots: seq<Entity>, a: Address, entry: (string, seq<string>))
    requires roots != [] && Enters([roots[|roots| - 1]], |roots| - 1, a, [], entry)
    ensures PairedAt(roots, a, entry)
  {
    LastRoot(roots, a);
    var b := [a[0] - (|roots| - 1)] + a[1..];
    assert [] + NamesTo([roots[|roots| - 1]], b) == NamesTo([roots[|roots| - 1]], b);
    assert b[0] == 0;
  }

  ghost predicate Names(entries: seq<(string, seq<string>)>, mapped: string) {
    exists k :: 0 <= k < |entries| && entries[k].0 == mapped
  }

  ghost predicate LastRootHasCandidate(roots: seq<Entity>, start: string, mapped: string) {
    exists a :: a != [] && a[0] == |roots| - 1 && Candidate(roots, start, mapped, a)
  }

  ghost predicate LeadsToLast(roots: seq<Entity>, start: string, mapped: string, path: seq<string>) {
    exists a :: LastCandidate(roots, start, mapped, a) && NamesTo(roots, a) == path
  }

  lemma PairedCandidate(roots: seq<Entity>, start: string, mapped: string, a: Address, entry: (string, seq<string>))
    requires roots != [] && Called(roots[|roots| - 1], start) && PairedAt(roots, a, entry)
    ensures Candidate(roots, start, mapped, a) <==> entry.0 == mapped
  {
    CalledByMappedName(At(roots, a).value, mapped);
    CalledByMappedName(At(roots, a).value, entry.0);
  }

  lemma LastRootNames(roots: seq<Entity>, start: string, mapped: string, order: seq<Address>,
                      entries: seq<(string, seq<string>)>)
    requires roots != [] && Called(roots[|roots| - 1], start) && Paired(roots, order, entries)
    ensures Names(entries, mapped) <==> LastRootHasCandidate(roots, start, mapped)
  {
    hide Called, At, NamesTo;
    if Names(entries, mapped) {
      var k :| 0 <= k < |entries| && entries[k].0 == mapped;
      PairedCandidate(roots, start, mapped, order[k], entries[k]);
    }
    if LastRootHasCandidate(roots, start, mapped) {
      var a :| a != [] && a[0] == |roots| - 1 && Candidate(roots, start, mapped, a);
      var k :| 0 <= k < |order| && order[k] == a;
      PairedCandidate(roots, start, mapped, a, entries[k]);
    }
  }

  lemma LastEntryLeads(roots: seq<Entity>, start: string, mapped: string, order: seq<Address>,
                       entries: seq<(string, seq<string>)>, path: seq<string>)
    requires roots != [] && Called(roots[|roots| - 1], start) && Paired(roots, order, entries)
    requires IsLast(entries, mapped, path)
    ensures LeadsToLast(roots, start, mapped, path)
  {
    hide Called, At, NamesTo;
    var k :| 0 <= k < |entries| && entries[k] == (mapped, path)
             && forall l :: k < l < |entries| ==> entries[l].0 != mapped;
    var a := order[k];
    PairedCandidate(roots, start, mapped, a, entries[k]);
    forall b | Candidate(roots, start, mapped, b) ensures b == a || Before(b, a) {
      LastRootComesLast(roots, start, mapped, a, b);
      if b[0] == |roots| - 1 {
        var j :| 0 <= j < |order| && order[j] == b;
        PairedCandidate(roots, start, mapped, b, entries[j]);
      }
    }
    assert LastCandidate(roots, start, mapped, a);
  }

  lemma LastRootComesLast(roots: seq<Entity>, start: string, mapped: string, a: Address, b: Address)
    requires roots != [] && a != [] && a[0] == |roots| - 1 && Candidate(roots, start, mapped, b)
    ensures b != [] && (b[0] == |roots| - 1 || Before(b, a))
    ensures At(roots, b).Some?
  {
  }

  /** Without an entry below the last root, the candidates are those of the others. */
  lemma LeadsAsBefore(roots: seq<Entity>, start: string, mapped: string)
    requires roots != [] && !LastRootHasCandidate(roots, start, mapped)
    ensures HasCandidate(roots[..|roots| - 1], start, mapped) <==> HasCandidate(roots, start, mapped)
    ensures forall path :: LeadsToLast(roots[..|roots| - 1], start, mapped, path) ==>
                             LeadsToLast(roots, start, mapped, path)
  {
    var before := roots[..|roots| - 1];
    forall a ensures Candidate(before, start, mapped, a) <==> Candidate(roots, start, mapped, a) {
      EarlierRoots(roots, start, mapped, a);
      if Candidate(roots, start, mapped, a) {
        assert a[0] != |roots| - 1;
      }
    }
    hide Candidate;
    forall path | LeadsToLast(before, start, mapped, path) ensures LeadsToLast(roots, start, mapped, path) {
      var a :| LastCandidate(before, start, mapped, a) && NamesTo(before, a) == path;
      EarlierRoots(roots, start, mapped, a);
      assert LastCandidate(roots, start, mapped, a);
    }
  }

  /** A root that does not go by the name has no candidates. */
  lemma OtherRootHasNone(roots: seq<Entity>, start: string, mapped: string)
    requires roots != [] && !Called(roots[|roots| - 1], start)
    ensures !LastRootHasCandidate(roots, start, mapped)
  {
  }

  /** The index has an entry for a root and an entity below it exactly when they go by these names, and what it
      holds is the way to the last such entity in the order of the crawl. */
  lemma {:induction false} IndexHoldsLast(roots: seq<Entity>, start: string, mapped: string)
    ensures start in PathsOf(roots) <==> exists i :: 0 <= i < |roots| && Called(roots[i], start)
    ensures Indexed(roots, start, mapped) <==> HasCandidate(roots, start, mapped)
    ensures Indexed(roots, start, mapped) ==> LeadsToLast(roots, start, mapped, PathsOf(roots)[start][mapped])
    decreases |roots|
  {
    if roots != [] {
      var n := |roots| - 1;
      var before := roots[..n];
      IndexHoldsLast(before, start, mapped);
      CalledByMappedName(roots[n], start);
      var entries := Listing(roots[n], []);
      hide Candidate, LeadsToLast, LastRootHasCandidate, HasCandidate, Called, Listing;
      if !Called(roots[n], start) {
        OtherRootHasNone(roots, start, mapped);
        LeadsAsBefore(roots, start, mapped);
      } else {
        var known := if start in PathsOf(before) then PathsOf(before)[start] else map[];
        StoreKeepsLast(known, entries, mapped);
        LastRootIsPaired(roots);
        LastRootNames(roots, start, mapped, Order([roots[n]], n), entries);
        if Names(entries, mapped) {
          LastEntryLeads(roots, start, mapped, Order([roots[n]], n), entries, Store(known, entries)[mapped]);
          SomeCandidate(roots, start, mapped);
        } else {
          LeadsAsBefore(roots, start, mapped);
        }
      }
    }
  }

  lemma SomeCandidate(roots: seq<Entity>, start: string, mapped: string)
    requires LastRootHasCandidate(roots, start, mapped)
    ensures HasCandidate(roots, start, mapped)
  {
  }

  // ---------------------------------------------------------------- names are ways

  /** The entities on the way go by these names. */
  predicate CalledAlong(entities: seq<Entity>, a: Address, names: seq<string>)
    decreases |a|
  {
    && At(entities, a).Some? && |names| == |a| && Called(entities[a[0]], names[0])
    && (|a| > 1 ==> CalledAlong(entities[a[0]].entities, a[1..], names[1..]))
  }

  ghost predicate NamesAreWays(entities: seq<Entity>) {
    forall a, b, names :: CalledAlong(entities, a, names) && CalledAlong(entities, b, names) ==> a == b
  }

  /** On every level, siblings go by different names. */
  predicate AllDistinct(entities: seq<Entity>) {
    DistinctRoots(entities) && forall i :: 0 <= i < |entities| ==> AllDistinct(entities[i].entities)
  }

  lemma OneRootOfTheName(entities: seq<Entity>, i: nat, j: nat, name: string)
    requires DistinctRoots(entities) && i < |entities| && j < |entities|
    requires Called(entities[i], name) && Called(entities[j], name)
    ensures i == j
  {
    CollidingNames(entities[i], entities[j]);
    CollidingNames(entities[j], entities[i]);
  }

  lemma {:induction false} DistinctNamesLead(entities: seq<Entity>, a: Address, b: Address, names: seq<string>)
    requires AllDistinct(entities) && CalledAlong(entities, a, names) && CalledAlong(entities, b, names)
    ensures a == b
    decreases |a|
  {
    OneRootOfTheName(entities, a[0], b[0], names[0]);
    if |a| > 1 {
      DistinctNamesLead(entities[a[0]].entities, a[1..], b[1..], names[1..]);
    }
    assert a == [a[0]] + a[1..] && b == [b[0]] + b[1..];
  }

  lemma {:induction false} SharedNamesMislead(entities: seq<Entity>)
    requires !AllDistinct(entities)
    ensures !NamesAreWays(entities)
    decreases entities
  {
    if !DistinctRoots(entities) {
      CollidingRootsMislead(entities);
    } else {
      var i :| 0 <= i < |entities| && !AllDistinct(entities[i].entities);
      SharedNamesMislead(entities[i].entities);
      var a, b, names :| CalledAlong(entities[i].entities, a, names) && CalledAlong(entities[i].entities, b, names)
                         && a != b;
      CalledBelow(entities, i, a, names);
      CalledBelow(entities, i, b, names);
      assert ([i] + a)[1..] == a && ([i] + b)[1..] == b;
    }
  }

  lemma CollidingRootsMislead(entities: seq<Entity>)
    requires !DistinctRoots(entities)
    ensures !NamesAreWays(entities)
  {
    var i, j :| 0 <= i < j < |entities| && Collide(entities[i], entities[j]);
    CollidingNames(entities[i], entities[j]);
    var name :| Called(entities[i], name) && Called(entities[j], name);
    assert CalledAlong(entities, [i], [name]) && CalledAlong(entities, [j], [name]);
    assert [i][0] != [j][0];
  }

  lemma CalledBelow(entities: seq<Entity>, i: nat, a: Address, names: seq<string>)
    requires i < |entities| && CalledAlong(entities[i].entities, a, names)
    ensures CalledAlong(entities, [i] + a, [entities[i].MappedName()] + names)
  {
    CalledByMappedName(entities[i], entities[i].MappedName());
    assert ([i] + a)[1..] == a && ([entities[i].MappedName()] + names)[1..] == names;
  }

  /** Siblings go by different names on every level exactly when a list of names leads to one entity at most. */
  lemma DistinctExactlyWhenNamesAreWays(entities: seq<Entity>)
    ensures AllDistinct(entities) <==> NamesAreWays(entities)
  {
    if AllDistinct(entities) {
      forall a, b, names | CalledAlong(entities, a, names) && CalledAlong(entities, b, names) ensures a == b {
        DistinctNamesLead(entities, a, b, names);
      }
    } else {
      SharedNamesMislead(entities);
    }
  }
}
