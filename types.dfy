/**
 * Shared vocabulary: the fixed-width integers of the wire protocol, an
 * Option type, and the two Rust collection operations the registry relies
 * on (`Iterator::position`/`find` and `Vec::swap_remove`).
 */
module Types {

  const U32_LIMIT: int := 0x1_0000_0000

  /** Unsigned 32-bit protocol integer (`u32`). */
  type u32 = x: int | 0 <= x < 0x1_0000_0000

  /** Signed 32-bit protocol integer (`i32`). */
  type i32 = x: int | -0x8000_0000 <= x < 0x8000_0000

  /** Identity of a protocol proxy object (opaque; compared by equality only). */
  type ObjectId = nat

  datatype Option<T> = None | Some(value: T) {
    function GetOr(default: T): T {
      match this
      case Some(v) => v
      case None => default
    }
  }

  /**
   * Rust's `x as u32` for an `i32`: the same 32 bits read as unsigned, so a
   * negative value wraps around.
   */
  function AsU32(x: i32): (r: u32)
    ensures 0 <= x ==> r == x
    ensures x < 0 ==> r == x + U32_LIMIT
  {
    x % 0x1_0000_0000
  }

  /**
   * Index of the first element of `s[from..]` satisfying `p`, as
   * `s.iter().position(p)` computes it on that suffix.
   */
  function FindIndexFrom<T>(s: seq<T>, p: T -> bool, from: nat): (r: Option<nat>)
    requires from <= |s|
    ensures r.Some? ==> from <= r.value < |s| && p(s[r.value])
    ensures r.Some? ==> forall j :: from <= j < r.value ==> !p(s[j])
    ensures r.None? <==> forall j :: from <= j < |s| ==> !p(s[j])
    decreases |s| - from
  {
    if from == |s| then None
    else if p(s[from]) then Some(from)
    else FindIndexFrom(s, p, from + 1)
  }

  /** Index of the first element satisfying `p` (`iter().enumerate().find(..)`). */
  function FindIndex<T>(s: seq<T>, p: T -> bool): (r: Option<nat>)
    ensures r.Some? ==> r.value < |s| && p(s[r.value])
    ensures r.Some? ==> forall j :: 0 <= j < r.value ==> !p(s[j])
    ensures r.None? <==> forall j :: 0 <= j < |s| ==> !p(s[j])
  {
    FindIndexFrom(s, p, 0)
  }

  /** First element satisfying `p` (`iter().find(p)`). */
  function Find<T>(s: seq<T>, p: T -> bool): (r: Option<T>)
    ensures r.Some? ==> p(r.value)
    ensures r.Some? ==> exists k :: 0 <= k < |s| && s[k] == r.value && forall j :: 0 <= j < k ==> !p(s[j])
    ensures r.None? <==> forall j :: 0 <= j < |s| ==> !p(s[j])
  {
    match FindIndex(s, p)
    case Some(k) => Some(s[k])
    case None => None
  }

  /**
   * `Vec::swap_remove(i)`: the last element takes the place of element `i`
   * and the vector shrinks by one.
   */
  function SwapRemove<T>(s: seq<T>, i: nat): (r: seq<T>)
    requires i < |s|
    ensures |r| == |s| - 1
    ensures i < |r| ==> r[i] == s[|s| - 1]
    ensures forall j :: 0 <= j < |r| && j != i ==> r[j] == s[j]
  {
    var last := |s| - 1;
    s[i := s[last]][..last]
  }

  /** Swap-removing takes out exactly the element at `i`: the rest is the same multiset. */
  lemma SwapRemoveMultiset<T>(s: seq<T>, i: nat)
    requires i < |s|
    ensures multiset(SwapRemove(s, i)) + multiset{s[i]} == multiset(s)
  {
    var last := |s| - 1;
    var prefix := s[..last];
    assert s == prefix + [s[last]];
    if i < last {
      assert SwapRemove(s, i) == prefix[i := s[last]];
      assert prefix[i] == s[i];
      assert multiset(prefix[i := s[last]]) == multiset(prefix) - multiset{s[i]} + multiset{s[last]};
    } else {
      assert SwapRemove(s, i) == prefix;
    }
  }
}
