/**
 Range edits of a list, made of single removals and insertions on the backing array.
 */
module SwiftList {
  import opened Schema

  // What replacing positions `lo` to `hi` means.
  function Replaced<T>(s: seq<T>, lo: nat, hi: nat, items: seq<T>): seq<T>
    requires lo <= hi <= |s|
  {
    s[..lo] + items + s[hi..]
  }

  class List<T> {
    var elements: seq<T>

    constructor (elements: seq<T>)
      ensures this.elements == elements
    {
      this.elements := elements;
    }

    method Insert(item: T, i: nat) returns (res: Result<()>)
      modifies this
      ensures res == if i <= old(|elements|) then Ok(()) else Err(OutOfBoundsIndex)
      ensures elements == if i <= old(|elements|) then old(elements)[..i] + [item] + old(elements)[i..]
                          else old(elements)
    {
      if i > |elements| {
        return Err(OutOfBoundsIndex);
      }
      elements := elements[..i] + [item] + elements[i..];
      res := Ok(());
    }

    method Remove(i: nat) returns (res: Result<()>)
      modifies this
      ensures res == if i < old(|elements|) then Ok(()) else Err(OutOfBoundsIndex)
      ensures elements == if i < old(|elements|) then old(elements)[..i] + old(elements)[i + 1..] else old(elements)
    {
      if i >= |elements| {
        return Err(OutOfBoundsIndex);
      }
      elements := elements[..i] + elements[i + 1..];
      res := Ok(());
    }

    // A range that reaches past the end fails after everything from its start on was removed.
    method RemoveSubrange(lo: nat, hi: nat) returns (res: Result<()>)
      requires lo <= hi
      modifies this
      ensures lo < hi && hi > old(|elements|) ==>
                res == Err(OutOfBoundsIndex)
                && elements == if lo <= old(|elements|) then old(elements)[..lo] else old(elements)
      ensures hi <= old(|elements|) ==> res == Ok(()) && elements == Replaced(old(elements), lo, hi, [])
      ensures lo == hi ==> res == Ok(()) && elements == old(elements)
    {
      var k := lo;
      while k < hi
        invariant lo <= k <= hi
        invariant k == lo ==> elements == old(elements)
        invariant k > lo ==> k <= old(|elements|) && elements == old(elements)[..lo] + old(elements)[k..]
      {
        res := Remove(lo);
        if res.Err? {
          assert lo <= old(|elements|) ==> elements == old(elements)[..lo];
          return;
        }
        k := k + 1;
      }
      res := Ok(());
      if lo == hi <= old(|elements|) {
        assert Replaced(old(elements), lo, hi, []) == old(elements);
      }
    }

    method InsertContents(items: seq<T>, at: nat) returns (res: Result<()>)
      modifies this
      ensures items != [] && at > old(|elements|) ==> res == Err(OutOfBoundsIndex) && elements == old(elements)
      ensures at <= old(|elements|) ==> res == Ok(()) && elements == Replaced(old(elements), at, at, items)
      ensures items == [] ==> res == Ok(()) && elements == old(elements)
    {
      var currentIndex := at;
      var k := 0;
      while k < |items|
        invariant k <= |items| && currentIndex == at + k
        invariant k == 0 ==> elements == old(elements)
        invariant k > 0 ==> at <= old(|elements|) && elements == old(elements)[..at] + items[..k] + old(elements)[at..]
      {
        res := Insert(items[k], currentIndex);
        if res.Err? {
          return;
        }
        currentIndex := currentIndex + 1;
        k := k + 1;
      }
      res := Ok(());
      if items == [] && at <= old(|elements|) {
        assert Replaced(old(elements), at, at, items) == old(elements);
      }
    }

    // Removes from the front of the range, then inserts the new elements last to first.
    method ReplaceSubrange(lo: nat, hi: nat, items: seq<T>) returns (res: Result<()>)
      requires lo <= hi
      modifies this
      ensures hi <= old(|elements|) ==> res == Ok(()) && elements == Replaced(old(elements), lo, hi, items)
      ensures lo < hi && hi > old(|elements|) ==>
                res == Err(OutOfBoundsIndex)
                && elements == if lo <= old(|elements|) then old(elements)[..lo] else old(elements)
      ensures lo == hi > old(|elements|) ==>
                elements == old(elements) && res == if items == [] then Ok(()) else Err(OutOfBoundsIndex)
    {
      res := RemoveSubrange(lo, hi);
      if res.Err? {
        return;
      }
      ghost var removed := elements;
      if hi <= old(|elements|) {
        assert |removed| == old(|elements|) - (hi - lo);
        assert removed[..lo] == old(elements)[..lo] && removed[lo..] == old(elements)[hi..];
      }
      var k := |items|;
      while k > 0
        invariant 0 <= k <= |items|
        invariant k == |items| ==> elements == removed
        invariant k < |items| ==> lo <= |removed| && elements == removed[..lo] + items[k..] + removed[lo..]
      {
        k := k - 1;
        res := Insert(items[k], lo);
        if res.Err? {
          return;
        }
      }
      res := Ok(());
      if hi <= old(|elements|) {
        assert items[0..] == items;
        assert removed == removed[..lo] + removed[lo..];
      }
    }

    method RemoveFirst(number: nat) returns (res: Result<()>)
      modifies this
      ensures res.Ok? <==> number <= old(|elements|)
      ensures elements == if number <= old(|elements|) then old(elements)[number..] else old(elements)
    {
      if number > |elements| {
        return Err(OutOfBoundsIndex);
      }
      var k := 0;
      while k < number
        invariant k <= number
        invariant elements == old(elements)[k..]
      {
        var r := Remove(0);
        k := k + 1;
      }
      res := Ok(());
    }

    method RemoveLast(number: nat) returns (res: Result<()>)
      modifies this
      ensures res.Ok? <==> number <= old(|elements|)
      ensures elements == if number <= old(|elements|) then old(elements)[..|old(elements)| - number] else old(elements)
    {
      if number > |elements| {
        return Err(OutOfBoundsIndex);
      }
      var k := 0;
      while k < number
        invariant k <= number
        invariant elements == old(elements)[..|old(elements)| - k]
      {
        var r := Remove(|elements| - 1);
        k := k + 1;
      }
      res := Ok(());
    }
  }

  /** Replacing a range is removing it and then inserting at its start. */
  lemma ReplaceIsRemoveInsert<T>(s: seq<T>, lo: nat, hi: nat, items: seq<T>)
    requires lo <= hi <= |s|
    ensures lo <= |Replaced(s, lo, hi, [])|
    ensures Replaced(Replaced(s, lo, hi, []), lo, lo, items) == Replaced(s, lo, hi, items)
  {
    var removed := Replaced(s, lo, hi, []);
    assert removed[..lo] == s[..lo] && removed[lo..] == s[hi..];
  }
}
