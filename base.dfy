/** Small shared vocabulary: optional values, results and a first-match search. */
module Base {

  /** A value that may be absent: a field that was not found, a lookup that failed. */
  datatype Option<+T> = None | Some(value: T)

  /** The outcome of an operation that can fail with an error the caller must see. */
  datatype Result<+T, +E> = Ok(value: T) | Err(error: E)

  /** Index of the first element of `s` satisfying `p`, the shape of a Python
      `for x in s: if p(x): ...; break` scan. */
  function FirstWhere<T>(s: seq<T>, p: T -> bool): (r: Option<nat>)
    ensures r.Some? ==> r.value < |s| && p(s[r.value])
    ensures r.Some? ==> forall j :: 0 <= j < r.value ==> !p(s[j])
    ensures r.None? <==> forall j :: 0 <= j < |s| ==> !p(s[j])
  {
    if s == [] then None
    else if p(s[0]) then Some(0)
    else match FirstWhere(s[1..], p)
      case None => None
      case Some(k) => Some(k + 1)
  }

  /** Appending an element moves the first match only when there was none. */
  lemma {:induction false} FirstWhereSnoc<T>(s: seq<T>, x: T, p: T -> bool)
    ensures FirstWhere(s + [x], p) ==
      match FirstWhere(s, p)
      case Some(i) => Some(i)
      case None => if p(x) then Some(|s|) else None
  {
    var t := s + [x];
    forall j | 0 <= j < |s| ensures t[j] == s[j] {
    }
    assert t[|s|] == x;
  }

  /** The first match in a concatenation: in the first part if there is
      one, otherwise in the second, shifted past the first. */
  lemma {:induction false} FirstWhereConcat<T>(a: seq<T>, b: seq<T>, p: T -> bool)
    ensures FirstWhere(a + b, p) ==
      match FirstWhere(a, p)
      case Some(i) => Some(i)
      case None =>
        match FirstWhere(b, p)
        case Some(k) => Some(|a| + k)
        case None => None
  {
    if a == [] {
      assert a + b == b;
    } else {
      assert (a + b)[0] == a[0];
      assert (a + b)[1..] == a[1..] + b;
      FirstWhereConcat(a[1..], b, p);
    }
  }

  /** Python's `s[:n]` for a non-negative `n`. */
  function Take<T>(s: seq<T>, n: nat): (r: seq<T>)
    ensures |r| == if n < |s| then n else |s|
    ensures forall j :: 0 <= j < |r| ==> r[j] == s[j]
  {
    if n < |s| then s[..n] else s
  }
}
