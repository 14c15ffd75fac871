/** Bytes, optional values and the concatenation of byte sequences. */
module Bytes {

  newtype byte = x: int | 0 <= x < 0x100

  datatype Option<+T> = None | Some(value: T)

  function Flatten<T>(parts: seq<seq<T>>): seq<T> {
    if parts == [] then [] else parts[0] + Flatten(parts[1..])
  }

  lemma {:induction false} FlattenAppend<T>(a: seq<seq<T>>, b: seq<seq<T>>)
    ensures Flatten(a + b) == Flatten(a) + Flatten(b)
  {
    if a == [] {
      assert a + b == b;
    } else {
      FlattenAppend(a[1..], b);
      assert Flatten(a + b) == a[0] + Flatten(a[1..] + b) by {
        assert a + b == [a[0]] + (a[1..] + b);
      }
    }
  }

  lemma FlattenOne<T>(part: seq<T>)
    ensures Flatten([part]) == part
  {
    assert [part][1..] == [];
  }

  lemma Reassociate<T>(a: seq<T>, b: seq<T>, c: seq<T>)
    ensures (a + b) + c == a + (b + c)
  {
  }

  lemma Subslice<T>(s: seq<T>, first: nat, last: nat, start: nat, end: nat)
    requires first <= last <= |s| && start <= end <= last - first
    ensures s[first..last][start..end] == s[first + start..first + end]
  {
    var (inner, whole) := (s[first..last][start..end], s[first + start..first + end]);
    assert forall i | 0 <= i < end - start :: inner[i] == whole[i];
  }

  /** The next multiple after `a * factor` is not beyond any larger multiple. */
  lemma MulNext(a: nat, b: nat, factor: nat)
    ensures a < b ==> a * factor + factor <= b * factor
  {
    if a < b {
      MulMonotone(a + 1, b, factor);
      assert (a + 1) * factor == a * factor + factor;
    }
  }

  lemma MulMonotone(a: nat, b: nat, factor: nat)
    requires a <= b
    ensures a * factor <= b * factor
  {
  }
}
