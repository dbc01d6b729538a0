/**
 * The drawable registry (src/drawables.ts): draw callbacks stored under
 * integer handles that only ever grow. The JavaScript Map keeps insertion
 * order, so it is modelled as a list of (handle, drawable) pairs.
 */
module Drawables {
  import opened Wrappers
  import Hex

  const PriorityTerrain: int := 0
  const PriorityBuildings: int := 1
  const PriorityBorder: int := 2
  const PriorityToasts: int := 3
  const PriorityMenu: int := 4
  const DrawableMaxPriority: int := 5

  /** The handle that names no drawable; removing it does nothing. */
  const DrawableNoopHandle: int := -1

  /** One of the five named priorities. */
  type Priority = p: int | 0 <= p < DrawableMaxPriority

  /** A priority, the draw callback (opaque here) and an optional hex to cull by. */
  datatype Drawable<D> = Drawable(priority: Priority, draw: D, hex: Option<Hex.Point>)

  type Entries<D> = seq<(int, Drawable<D>)>

  ghost predicate HandlesIncreasing<D>(entries: Entries<D>) {
    forall i, j :: 0 <= i < j < |entries| ==> entries[i].0 < entries[j].0
  }

  /** Map.prototype.get. */
  function Lookup<D>(entries: Entries<D>, handle: int): Option<Drawable<D>>
    decreases |entries|
  {
    if entries == [] then None
    else if entries[0].0 == handle then Some(entries[0].1)
    else Lookup(entries[1..], handle)
  }

  /** Map.prototype.delete: every entry under other handles stays, in order. */
  function Without<D>(entries: Entries<D>, handle: int): Entries<D>
    decreases |entries|
  {
    if entries == [] then []
    else if entries[0].0 == handle then Without(entries[1..], handle)
    else [entries[0]] + Without(entries[1..], handle)
  }

  /** Map.prototype.values, in insertion order. */
  function Values<D>(entries: Entries<D>): (values: seq<Drawable<D>>)
    ensures |values| == |entries|
    ensures forall i :: 0 <= i < |entries| ==> values[i] == entries[i].1
  {
    seq(|entries|, i requires 0 <= i < |entries| => entries[i].1)
  }

  /** Deleting a handle removes it and leaves every other handle's drawable as it was. */
  lemma {:induction false} WithoutLookup<D>(entries: Entries<D>, handle: int, other: int)
    ensures Lookup(Without(entries, handle), handle) == None
    ensures other != handle ==> Lookup(Without(entries, handle), other) == Lookup(entries, other)
    decreases |entries|
  {
    if entries != [] {
      WithoutLookup(entries[1..], handle, other);
    }
  }

  /** Deleting a handle that is not registered (for one, the no-op handle) changes nothing. */
  lemma {:induction false} WithoutUnknown<D>(entries: Entries<D>, handle: int)
    requires Lookup(entries, handle) == None
    ensures Without(entries, handle) == entries
    decreases |entries|
  {
    if entries != [] {
      WithoutUnknown(entries[1..], handle);
      assert entries == [entries[0]] + entries[1..];
    }
  }

  lemma {:induction false} WithoutBounded<D>(entries: Entries<D>, handle: int, low: int, high: int)
    requires forall i :: 0 <= i < |entries| ==> low <= entries[i].0 <= high
    requires HandlesIncreasing(entries)
    ensures forall i :: 0 <= i < |Without(entries, handle)| ==> low <= Without(entries, handle)[i].0 <= high
    ensures HandlesIncreasing(Without(entries, handle))
    decreases |entries|
  {
    if entries != [] {
      var rest := entries[1..];
      WithoutBounded(rest, handle, entries[0].0 + 1, high);
      WithoutBounded(rest, handle, low, high);
      if entries[0].0 != handle {
        var r := [entries[0]] + Without(rest, handle);
        forall i, j | 0 <= i < j < |r|
          ensures r[i].0 < r[j].0
        {
          assert r[j] == Without(rest, handle)[j - 1];
          if i > 0 {
            assert r[i] == Without(rest, handle)[i - 1];
          }
        }
      }
    }
  }

  class Drawables<D> {
    var lastHandle: int
    var entries: Entries<D>

    ghost predicate Valid()
      reads this
    {
      && lastHandle >= 0
      && (forall i :: 0 <= i < |entries| ==> 1 <= entries[i].0 <= lastHandle)
      && HandlesIncreasing(entries)
    }

    constructor()
      ensures Valid() && lastHandle == 0 && entries == []
    {
      lastHandle := 0;
      entries := [];
    }

    function GetDrawables(): seq<Drawable<D>>
      reads this
    {
      Values(entries)
    }

    /** Registers a drawable under a fresh handle: one more than any handle handed out so far. */
    method Push(drawable: Drawable<D>) returns (handle: int)
      requires Valid()
      modifies this
      ensures Valid()
      ensures handle == old(lastHandle) + 1 == lastHandle
      ensures handle >= 1 && handle != DrawableNoopHandle
      ensures Lookup(old(entries), handle) == None
      ensures entries == old(entries) + [(handle, drawable)]
      ensures GetDrawables() == old(GetDrawables()) + [drawable]
    {
      NoLookupAbove(entries, lastHandle + 1);
      lastHandle := lastHandle + 1;
      entries := entries + [(lastHandle, drawable)];
      handle := lastHandle;
    }

    method Remove(handle: int)
      requires Valid()
      modifies this
      ensures Valid()
      ensures lastHandle == old(lastHandle)
      ensures entries == Without(old(entries), handle)
    {
      WithoutBounded(entries, handle, 1, lastHandle);
      entries := Without(entries, handle);
    }
  }

  lemma {:induction false} NoLookupAbove<D>(entries: Entries<D>, handle: int)
    requires forall i :: 0 <= i < |entries| ==> entries[i].0 < handle
    ensures Lookup(entries, handle) == None
    decreases |entries|
  {
    if entries != [] {
      NoLookupAbove(entries[1..], handle);
    }
  }

  /** The no-op handle is never registered, so removing it is a no-op. */
  lemma NoopHandleNeverRegistered<D>(entries: Entries<D>)
    requires forall i :: 0 <= i < |entries| ==> 1 <= entries[i].0
    ensures Lookup(entries, DrawableNoopHandle) == None
    ensures Without(entries, DrawableNoopHandle) == entries
  {
    NoopAbsent(entries);
    WithoutUnknown(entries, DrawableNoopHandle);
  }

  lemma {:induction false} NoopAbsent<D>(entries: Entries<D>)
    requires forall i :: 0 <= i < |entries| ==> 1 <= entries[i].0
    ensures Lookup(entries, DrawableNoopHandle) == None
    decreases |entries|
  {
    if entries != [] {
      NoopAbsent(entries[1..]);
    }
  }
}
