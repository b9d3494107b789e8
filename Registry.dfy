/**
 * Operations on the in-memory coordinator list that the service relies on:
 * finding the first record with a key and removing it, the way
 * `List.remove(Object)` does with key equality.
 */
module Registry {
  import opened Wrappers
  import opened Coordinators

  /** Some record of `s` has key (host, port). */
  predicate Contains(s: seq<Coordinator>, host: string, port: int) {
    exists i :: 0 <= i < |s| && HasKey(s[i], host, port)
  }

  /** No two records of `s` share a key. */
  predicate DistinctKeys(s: seq<Coordinator>) {
    forall i, j :: 0 <= i < j < |s| ==> !HasKey(s[i], s[j].host, s[j].port)
  }

  /** The position of the first record with key (host, port), if there is one. */
  function IndexOfKey(s: seq<Coordinator>, host: string, port: int): (r: Option<nat>)
    ensures r.None? <==> !Contains(s, host, port)
    ensures r.Some? ==> r.value < |s| && HasKey(s[r.value], host, port)
    ensures r.Some? ==> forall j :: 0 <= j < r.value ==> !HasKey(s[j], host, port)
  {
    if s == [] then None
    else if HasKey(s[0], host, port) then Some(0)
    else match IndexOfKey(s[1..], host, port)
      case None =>
        assert forall j :: 1 <= j < |s| ==> s[j] == s[1..][j - 1];
        None
      case Some(k) => Some(k + 1)
  }

  /** `s` without its first record with key (host, port); `s` itself when there is none. */
  function RemoveFirst(s: seq<Coordinator>, host: string, port: int): (r: seq<Coordinator>)
    ensures |r| == if Contains(s, host, port) then |s| - 1 else |s|
    ensures multiset(r) <= multiset(s)
  {
    match IndexOfKey(s, host, port)
    case None => s
    case Some(k) =>
      assert s == s[..k] + [s[k]] + s[k + 1..];
      s[..k] + s[k + 1..]
  }

  /** The records of `s` whose key is not (host, port), in order. */
  function Without(s: seq<Coordinator>, host: string, port: int): (r: seq<Coordinator>)
    ensures forall c :: c in r ==> c in s && !HasKey(c, host, port)
  {
    if s == [] then []
    else if HasKey(s[0], host, port) then Without(s[1..], host, port)
    else [s[0]] + Without(s[1..], host, port)
  }

  /** How many records of `s` carry key (host, port). */
  function KeyCount(s: seq<Coordinator>, host: string, port: int): (n: nat)
    ensures n <= |s|
    ensures n == 0 <==> !Contains(s, host, port)
  {
    if s == [] then 0
    else
      assert forall j :: 1 <= j < |s| ==> s[j] == s[1..][j - 1];
      (if HasKey(s[0], host, port) then 1 else 0) + KeyCount(s[1..], host, port)
  }

  lemma {:induction false} WithoutAppend(a: seq<Coordinator>, b: seq<Coordinator>, host: string, port: int)
    ensures Without(a + b, host, port) == Without(a, host, port) + Without(b, host, port)
  {
    if a == [] {
      assert a + b == b;
    } else {
      assert (a + b)[0] == a[0];
      assert (a + b)[1..] == a[1..] + b;
      WithoutAppend(a[1..], b, host, port);
    }
  }

  lemma {:induction false} KeyCountAppend(a: seq<Coordinator>, b: seq<Coordinator>, host: string, port: int)
    ensures KeyCount(a + b, host, port) == KeyCount(a, host, port) + KeyCount(b, host, port)
  {
    if a == [] {
      assert a + b == b;
    } else {
      assert (a + b)[0] == a[0];
      assert (a + b)[1..] == a[1..] + b;
      KeyCountAppend(a[1..], b, host, port);
    }
  }

  lemma SingleKey(c: Coordinator, host: string, port: int)
    requires HasKey(c, host, port)
    ensures KeyCount([c], host, port) == 1 && Without([c], host, port) == []
  {
  }

  /** Splitting `s` around its first record with the key. */
  lemma {:induction false} SplitAtFirst(s: seq<Coordinator>, host: string, port: int, k: nat)
    requires IndexOfKey(s, host, port) == Some(k)
    ensures RemoveFirst(s, host, port) == s[..k] + s[k + 1..]
    ensures Without(s, host, port) == Without(s[..k] + s[k + 1..], host, port)
    ensures KeyCount(s, host, port) == KeyCount(s[..k] + s[k + 1..], host, port) + 1
  {
    var before, at, after := s[..k], s[k], s[k + 1..];
    assert s == before + ([at] + after);
    SingleKey(at, host, port);
    WithoutAppend(before, [at] + after, host, port);
    WithoutAppend([at], after, host, port);
    WithoutAppend(before, after, host, port);
    KeyCountAppend(before, [at] + after, host, port);
    KeyCountAppend([at], after, host, port);
    KeyCountAppend(before, after, host, port);
  }

  /**
   * Removal takes out exactly one record with the key when there is one,
   * and keeps every record with another key in its order; with no such
   * record the list is unchanged.
   */
  lemma RemoveFirstSpec(s: seq<Coordinator>, host: string, port: int)
    ensures !Contains(s, host, port) ==> RemoveFirst(s, host, port) == s
    ensures Contains(s, host, port) ==>
      KeyCount(RemoveFirst(s, host, port), host, port) == KeyCount(s, host, port) - 1
    ensures Without(RemoveFirst(s, host, port), host, port) == Without(s, host, port)
    ensures Contains(s, host, port) ==>
      exists k :: 0 <= k < |s| && HasKey(s[k], host, port)
        && (forall j :: 0 <= j < k ==> !HasKey(s[j], host, port))
        && RemoveFirst(s, host, port) == s[..k] + s[k + 1..]
  {
    match IndexOfKey(s, host, port)
    case None =>
    case Some(k) => SplitAtFirst(s, host, port, k);
  }

  /** With distinct keys, removal leaves the key absent and the keys still distinct. */
  lemma RemoveFirstDistinct(s: seq<Coordinator>, host: string, port: int)
    requires DistinctKeys(s)
    ensures !Contains(RemoveFirst(s, host, port), host, port)
    ensures DistinctKeys(RemoveFirst(s, host, port))
  {
  }

  /**
   * Without distinct keys a successful removal can leave the key behind:
   * a list holding the same node twice still holds it after one removal.
   */
  lemma DuplicateSurvivesRemoval(c: Coordinator)
    ensures Contains(RemoveFirst([c, c], c.host, c.port), c.host, c.port)
  {
  }
}
