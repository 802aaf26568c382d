/**
  Post-fetch read filtering: the resolvers fetch a whole collection and keep
  the items the viewer's abilities allow it to read. The ability is any
  predicate on the item; how it is derived from the actor's rules is not
  modelled here.
*/
module Abilities {

  /** The readable items, in their original order. */
  function Filter<T>(s: seq<T>, canRead: T -> bool): seq<T> {
    if s == [] then []
    else Filter(s[..|s| - 1], canRead) + (if canRead(s[|s| - 1]) then [s[|s| - 1]] else [])
  }

  /** The positions of the readable items, ascending. */
  function ReadablePositions<T>(s: seq<T>, canRead: T -> bool): seq<nat> {
    if s == [] then []
    else ReadablePositions(s[..|s| - 1], canRead) + (if canRead(s[|s| - 1]) then [|s| - 1] else [])
  }

  /** Only readable items of the input come out of the filter. */
  lemma {:induction false} FilterSound<T>(s: seq<T>, canRead: T -> bool)
    ensures |Filter(s, canRead)| <= |s|
    ensures forall x :: x in Filter(s, canRead) ==> x in s && canRead(x)
  {
    if s != [] {
      FilterSound(s[..|s| - 1], canRead);
    }
  }

  /** The filter's output is exactly the input at the readable positions:
      none dropped, none added, none reordered. */
  lemma {:induction false} FilterSelectsReadable<T>(s: seq<T>, canRead: T -> bool)
    ensures |ReadablePositions(s, canRead)| == |Filter(s, canRead)|
    ensures forall j :: 0 <= j < |ReadablePositions(s, canRead)| ==>
      ReadablePositions(s, canRead)[j] < |s| &&
      Filter(s, canRead)[j] == s[ReadablePositions(s, canRead)[j]]
    ensures forall j, j' :: 0 <= j < j' < |ReadablePositions(s, canRead)| ==>
      ReadablePositions(s, canRead)[j] < ReadablePositions(s, canRead)[j']
    ensures forall i :: 0 <= i < |s| ==> (canRead(s[i]) <==> i in ReadablePositions(s, canRead))
  {
    if s != [] {
      var n := |s| - 1;
      var front := s[..n];
      FilterSelectsReadable(front, canRead);
      var idx, r := ReadablePositions(front, canRead), Filter(front, canRead);
      assert forall j :: 0 <= j < |idx| ==> idx[j] < n && front[idx[j]] == s[idx[j]];
      forall i | 0 <= i < |s|
        ensures canRead(s[i]) <==> i in ReadablePositions(s, canRead)
      {
        if i < n {
          assert s[i] == front[i];
        }
      }
    }
  }

  /** The loop of the entities and checkEvents resolvers: append each item
      the viewer can read to an initially empty list. */
  method CollectReadable<T>(items: seq<T>, canRead: T -> bool) returns (resources: seq<T>)
    ensures resources == Filter(items, canRead)
  {
    resources := [];
    for i := 0 to |items|
      invariant resources == Filter(items[..i], canRead)
    {
      assert items[..i + 1][..i] == items[..i];
      if canRead(items[i]) {
        resources := resources + [items[i]];
      }
    }
    assert items[..|items|] == items;
  }
}
