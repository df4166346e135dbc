/** Go slices of strings: windows over backing arrays that several windows may share. */
module Slices {
  import opened Base
  import opened Keyspace

  /** off and len delimit the visible elements; cap bounds what append may overwrite in place. */
  datatype Slice = Slice(arr: array<Bytes>, off: nat, len: nat, cap: nat) {
    predicate Fits() {
      len <= cap && off + cap <= arr.Length
    }

    function Elements(): (s: seq<Bytes>)
      requires Fits()
      reads arr
    {
      arr[off..off + len]
    }

    /** list[from:to]; the capacity shrinks with the front only. */
    function Sub(from: nat, to: nat): (s: Slice)
      requires Fits() && from <= to <= len
      ensures s.Fits() && s.arr == arr
    {
      Slice(arr, off + from, to - from, cap - from)
    }

    lemma SubElements(from: nat, to: nat)
      requires Fits() && from <= to <= len
      ensures Sub(from, to).Elements() == Elements()[from..to]
    {
    }
  }

  /** The whole of an array, as make and variadic calls build it. */
  function Whole(a: array<Bytes>): (s: Slice)
    ensures s.Fits() && s.arr == a
  {
    Slice(a, 0, a.Length, a.Length)
  }

  /** Go's copy into the middle of an array. */
  method CopyInto(dst: array<Bytes>, at: nat, src: Slice)
    requires src.Fits() && src.arr != dst && at + src.len <= dst.Length
    modifies dst
    ensures dst[..] == old(dst[..at]) + src.Elements() + old(dst[at + src.len..])
  {
    for i := 0 to src.len
      invariant dst[..at] == old(dst[..at])
      invariant dst[at..at + i] == src.arr[src.off..src.off + i]
      invariant dst[at + src.len..] == old(dst[at + src.len..])
    {
      dst[at + i] := src.arr[src.off + i];
    }
    assert dst[..] == dst[..at] + dst[at..at + src.len] + dst[at + src.len..];
  }

  /** Go's append: in place when the capacity allows, otherwise in a new array with some spare room. */
  method Append(list: Slice, more: Slice, spare: nat) returns (r: Slice)
    requires list.Fits() && more.Fits() && list.arr != more.arr
    modifies list.arr
    ensures r.Fits() && r.Elements() == old(list.Elements()) + old(more.Elements())
    ensures if list.len + more.len <= list.cap
            then r == Slice(list.arr, list.off, list.len + more.len, list.cap)
            else fresh(r.arr) && list.arr[..] == old(list.arr[..])
    ensures more.arr[..] == old(more.arr[..])
  {
    var n := list.len + more.len;
    if n <= list.cap {
      r := Slice(list.arr, list.off, n, list.cap);
      CopyInto(list.arr, list.off + list.len, more);
    } else {
      var a := new Bytes[n + spare];
      CopyInto(a, 0, list);
      CopyInto(a, list.len, more);
      r := Slice(a, 0, n, n + spare);
    }
  }

  /** The in-place reversal that LPUSH applies to its arguments. */
  method Reverse(a: array<Bytes>)
    modifies a
    ensures a[..] == Reversed(old(a[..]))
  {
    var i, j := 0, a.Length - 1;
    while i < j
      invariant 0 <= i <= a.Length && i + j == a.Length - 1
      invariant forall k :: 0 <= k < a.Length && (k < i || j < k) ==> a[k] == old(a[a.Length - 1 - k])
      invariant forall k :: i <= k <= j ==> a[k] == old(a[k])
    {
      a[i], a[j] := a[j], a[i];
      i, j := i + 1, j - 1;
    }
  }
}
