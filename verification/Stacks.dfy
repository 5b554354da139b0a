/** util.Stack (internal/pkg/util/stacks.go): a stack on a Go slice, that is, on a
    backing array which Clear and Pop do not release and which Push reuses. */
module Stacks {
  import opened Results

  /** A slice handed out by Values: it aliases the backing array. */
  datatype View<T(0)> = View(store: array<T>, length: nat) {
    predicate Valid() {
      length <= store.Length
    }

    function Read(): (s: seq<T>)
      requires Valid()
      reads store
      ensures |s| == length
    {
      store[..length]
    }
  }

  class Stack<T(0)> {
    var store: array<T>
    var size: nat

    predicate Valid()
      reads this
    {
      size <= store.Length
    }

    function Contents(): (s: seq<T>)
      requires Valid()
      reads this, store
      ensures |s| == size
    {
      store[..size]
    }

    constructor ()
      ensures Valid() && Contents() == [] && fresh(store)
    {
      store, size := new T[0], 0;
    }

    method IsEmpty() returns (r: bool)
      requires Valid()
      ensures r <==> Contents() == []
    {
      r := size == 0;
    }

    method Size() returns (r: nat)
      requires Valid()
      ensures r == |Contents()|
    {
      r := size;
    }

    method Clear()
      requires Valid()
      modifies this
      ensures Valid() && Contents() == []
      ensures store == old(store)
    {
      size := 0;
    }

    /** append: writes in place while the capacity lasts, otherwise moves to a larger array. */
    method Push(v: T)
      requires Valid()
      modifies this, store
      ensures Valid() && Contents() == old(Contents()) + [v]
      ensures if old(size) < old(store).Length then store == old(store) else fresh(store)
      ensures forall i :: 0 <= i < old(store).Length && (i != old(size) || fresh(store)) ==>
                            old(store)[i] == old(store[i])
    {
      if size == store.Length {
        var larger := new T[2 * size + 1];
        for i := 0 to size
          invariant size == old(size) && store == old(store) && store[..] == old(store[..])
          invariant larger[..i] == store[..i]
        {
          larger[i] := store[i];
        }
        store := larger;
      }
      store[size] := v;
      size := size + 1;
    }

    method Pop() returns (r: Option<T>)
      requires Valid()
      modifies this
      ensures Valid() && store == old(store)
      ensures old(Contents()) == [] ==> r == None && Contents() == []
      ensures old(Contents()) != [] ==> r.Some? && old(Contents()) == Contents() + [r.value]
    {
      if size == 0 {
        return None;
      }
      r := Some(store[size - 1]);
      size := size - 1;
    }

    method Peek() returns (r: Option<T>)
      requires Valid()
      ensures r == if Contents() == [] then None else Some(Contents()[size - 1])
    {
      r := if size == 0 then None else Some(store[size - 1]);
    }

    method Values() returns (v: View<T>)
      requires Valid()
      ensures v == View(store, size) && v.Valid() && v.Read() == Contents()
    {
      v := View(store, size);
    }
  }

  /** AppendToTop: the value joins the top frame; no frame means an error and no change. */
  method AppendToTop<T>(s: Stack<seq<T>>, v: T) returns (ok: bool)
    requires s.Valid()
    modifies s, s.store
    ensures s.Valid() && (s.store == old(s.store) || fresh(s.store))
    ensures ok <==> old(s.Contents()) != []
    ensures s.Contents() == if ok then WithTop(old(s.Contents()), v) else []
  {
    var top := s.Pop();
    if top.None? {
      return false;
    }
    ghost var below := s.Contents();
    s.Push(top.value + [v]);
    assert WithTop(old(s.Contents()), v) == below + [top.value + [v]];
    return true;
  }

  /** The frames with one more value in the top frame. */
  function WithTop<T>(frames: seq<seq<T>>, v: T): (r: seq<seq<T>>)
    requires frames != []
    ensures |r| == |frames|
  {
    frames[..|frames| - 1] + [frames[|frames| - 1] + [v]]
  }

  /** The frames with several more values in the top frame. */
  function WithTops<T>(frames: seq<seq<T>>, vs: seq<T>): seq<seq<T>>
    requires frames != []
  {
    frames[..|frames| - 1] + [frames[|frames| - 1] + vs]
  }

  lemma WithTopsNothing<T>(frames: seq<seq<T>>)
    requires frames != []
    ensures WithTops(frames, []) == frames
  {
    assert frames[|frames| - 1] + [] == frames[|frames| - 1];
  }

  lemma WithTopsOfOne<T>(vs: seq<T>)
    ensures WithTops([[]], vs) == [vs]
  {
    assert [] + vs == vs;
  }

  lemma WithTopsTwice<T>(frames: seq<seq<T>>, a: seq<T>, b: seq<T>)
    requires frames != []
    ensures WithTops(WithTops(frames, a), b) == WithTops(frames, a + b)
  {
    var top := frames[|frames| - 1];
    assert top + a + b == top + (a + b);
  }
}
