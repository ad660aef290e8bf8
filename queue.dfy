/**
 * `Queue<T>` of crates/app/src/utils.rs (duplicated in src/app.rs): a
 * vector with a size bound that, when full, drops its oldest entry to make
 * room for the new one, so it always holds the most recent values.
 */
module AppUtils {

  /**
   * The vector after `push`: when it already holds `maxSize` items the
   * front one is removed first; the value then goes at the back.
   */
  function Pushed<T>(items: seq<T>, maxSize: nat, value: T): (r: seq<T>)
    requires |items| == maxSize ==> maxSize > 0
    ensures |r| == if |items| == maxSize then |items| else |items| + 1
    ensures r[|r| - 1] == value
    ensures forall k :: 0 <= k < |r| - 1 ==> r[k] == items[k + |items| + 1 - |r|]
  {
    if |items| == maxSize then items[1..] + [value] else items + [value]
  }

  /** Pushing into a queue within its bound keeps it within the bound. */
  lemma PushedWithinBound<T>(items: seq<T>, maxSize: nat, value: T)
    requires maxSize > 0 && |items| <= maxSize
    ensures |Pushed(items, maxSize, value)| <= maxSize
    ensures |items| < maxSize ==> Pushed(items, maxSize, value)[..|items|] == items
  {
  }

  /** Pushing `values` one after another. */
  function PushedAll<T>(items: seq<T>, maxSize: nat, values: seq<T>): seq<T>
    requires maxSize > 0 && |items| <= maxSize
    decreases |values|
  {
    if values == [] then items
    else
      PushedWithinBound(items, maxSize, values[0]);
      PushedAll(Pushed(items, maxSize, values[0]), maxSize, values[1..])
  }

  /** The last `maxSize` elements of `s` (all of it when shorter). */
  function Newest<T>(s: seq<T>, maxSize: nat): (r: seq<T>)
    ensures |r| == if |s| <= maxSize then |s| else maxSize
  {
    s[if |s| <= maxSize then 0 else |s| - maxSize..]
  }

  /** One push keeps "the newest `maxSize` of everything so far" unchanged. */
  lemma NewestAfterPush<T>(items: seq<T>, maxSize: nat, value: T, rest: seq<T>)
    requires maxSize > 0 && |items| <= maxSize
    ensures Newest(Pushed(items, maxSize, value) + rest, maxSize) == Newest(items + [value] + rest, maxSize)
  {
    var all := items + [value] + rest;
    if |items| == maxSize {
      assert Pushed(items, maxSize, value) + rest == all[1..];
      assert all[1..][|all| - 1 - maxSize..] == all[|all| - maxSize..];
    } else {
      assert Pushed(items, maxSize, value) + rest == all;
    }
  }

  /**
   * A queue within its bound always holds exactly the last `maxSize`
   * values of everything it was given, oldest first.
   */
  lemma {:induction false} PushedAllKeepsNewest<T>(items: seq<T>, maxSize: nat, values: seq<T>)
    requires maxSize > 0 && |items| <= maxSize
    ensures PushedAll(items, maxSize, values) == Newest(items + values, maxSize)
    decreases |values|
  {
    if values == [] {
      assert items + values == items;
    } else {
      var next := Pushed(items, maxSize, values[0]);
      PushedWithinBound(items, maxSize, values[0]);
      calc {
        PushedAll(items, maxSize, values);
        PushedAll(next, maxSize, values[1..]);
        { PushedAllKeepsNewest(next, maxSize, values[1..]); }
        Newest(next + values[1..], maxSize);
        { NewestAfterPush(items, maxSize, values[0], values[1..]);
          assert items + [values[0]] + values[1..] == items + values; }
        Newest(items + values, maxSize);
      }
    }
  }

  class Queue<T> {
    var items: seq<T>
    const maxSize: nat

    /** The queue never holds more than its bound. */
    ghost predicate Valid()
      reads this
    {
      |items| <= maxSize
    }

    /** `Queue::new`: empty, with bound `maxSize`. */
    constructor (maxSize: nat)
      ensures items == [] && this.maxSize == maxSize
      ensures Valid()
    {
      items := [];
      this.maxSize := maxSize;
    }

    /**
     * `push`: drop the oldest item when full, then append `value`. A
     * queue of bound 0 cannot take a value (removing from the empty
     * vector panics).
     */
    method Push(value: T)
      requires |items| == maxSize ==> maxSize > 0
      modifies this
      ensures items == Pushed(old(items), maxSize, value)
      ensures old(Valid()) ==> Valid()
    {
      if |items| == maxSize {
        items := items[1..];
      }
      items := items + [value];
    }
  }
}
