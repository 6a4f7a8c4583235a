/** Small building blocks shared by the whole model: Kotlin's nullable values,
    `coerceIn`, and the first-match scan that every "for ... if ... return" loop
    of the plugin performs. */
module Common {

  /** A Kotlin `T?` value. */
  datatype Option<+T> = None | Some(value: T) {

    /** Kotlin's `x ?: default`. */
    function GetOr(default: T): T {
      match this
      case Some(v) => v
      case None => default
    }
  }

  /** Kotlin's `Int.coerceIn(minimumValue, maximumValue)`, which throws when the
      bounds are inverted; every caller passes constant, ordered bounds. */
  function CoerceIn(x: int, lo: int, hi: int): (r: int)
    requires lo <= hi
    ensures lo <= r <= hi
    ensures lo <= x <= hi ==> r == x
    ensures x < lo ==> r == lo
    ensures hi < x ==> r == hi
  {
    if x < lo then lo else if hi < x then hi else x
  }

  /** The index of the first element of `s` that `p` accepts, scanning in order;
      `None` when no element is accepted. */
  function FirstIndex<T>(s: seq<T>, p: T -> bool): (r: Option<nat>)
    ensures r.Some? ==> r.value < |s| && p(s[r.value])
    ensures r.Some? ==> forall j :: 0 <= j < r.value ==> !p(s[j])
    ensures r.None? <==> forall j :: 0 <= j < |s| ==> !p(s[j])
  {
    if |s| == 0 then None
    else if p(s[0]) then Some(0)
    else match FirstIndex(s[1..], p)
      case Some(k) => assert !p(s[0]) && p(s[1..][k]); Some(k + 1)
      case None => assert forall j :: 1 <= j < |s| ==> s[j] == s[1..][j - 1]; None
  }

  /** An accepted element that every earlier element rejects is the one the scan finds. */
  lemma FirstIndexIsUnique<T>(s: seq<T>, p: T -> bool, i: nat)
    requires i < |s| && p(s[i])
    requires forall j :: 0 <= j < i ==> !p(s[j])
    ensures FirstIndex(s, p) == Some(i)
  {
  }

  /** Two scans agree when the sequences have the same length and the predicates
      agree position by position. */
  lemma {:induction false} FirstIndexPointwise<T, U>(s: seq<T>, p: T -> bool, t: seq<U>, q: U -> bool)
    requires |s| == |t|
    requires forall i :: 0 <= i < |s| ==> p(s[i]) == q(t[i])
    ensures FirstIndex(s, p) == FirstIndex(t, q)
  {
    if |s| > 0 && !p(s[0]) {
      assert forall i :: 0 <= i < |s| - 1 ==> s[1..][i] == s[i + 1] && t[1..][i] == t[i + 1];
      FirstIndexPointwise(s[1..], p, t[1..], q);
    }
  }

  /** An element the predicate rejects can be dropped from the front without
      changing which element is found (the index moves down by one). */
  lemma {:induction false} FirstIndexSkipsRejected<T>(x: T, s: seq<T>, p: T -> bool)
    requires !p(x)
    ensures FirstIndex([x] + s, p) == match FirstIndex(s, p)
                                      case Some(k) => Some(k + 1)
                                      case None => None
  {
    assert ([x] + s)[1..] == s;
  }
}
