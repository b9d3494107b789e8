/**
 * The selection rule as a state machine over the list size `n` and the
 * rotation cursor. One call picks an index and moves the cursor:
 * below `n` it picks the cursor and increments it; at or beyond `n` it
 * picks 0 and resets the cursor to 0. The rotation therefore has period
 * n + 1 and picks index 0 twice per period.
 */
module Rotation {

  /** The index one selection returns and the cursor it leaves. */
  datatype Pick = Pick(at: nat, cursor: nat)

  function Step(n: nat, cursor: nat): (p: Pick)
    requires n > 0
    ensures p.at < n && p.cursor <= n
    ensures p.cursor == 0 || p.cursor == p.at + 1
  {
    if cursor >= n then Pick(0, 0) else Pick(cursor, cursor + 1)
  }

  /** The cursor after `k` selections over an unchanged list of size `n`, starting at `c`. */
  function Cursor(n: nat, c: nat, k: nat): nat
    requires n > 0
  {
    if k == 0 then c else Step(n, Cursor(n, c, k - 1)).cursor
  }

  /** The index returned by selection number `k` (counting from 0). */
  function PickAt(n: nat, c: nat, k: nat): (i: nat)
    requires n > 0
    ensures i < n
  {
    Step(n, Cursor(n, c, k)).at
  }

  /** The indices returned by the first `k` selections, in order. */
  function Picks(n: nat, c: nat, k: nat): (s: seq<nat>)
    requires n > 0
    ensures |s| == k
    ensures forall j :: 0 <= j < k ==> s[j] == PickAt(n, c, j)
  {
    if k == 0 then [] else Picks(n, c, k - 1) + [PickAt(n, c, k - 1)]
  }

  /** The indices 0, 1, ..., n - 1. */
  function Indices(n: nat): (s: seq<nat>)
    ensures |s| == n && forall j :: 0 <= j < n ==> s[j] == j
  {
    if n == 0 then [] else Indices(n - 1) + [n - 1]
  }

  /** The picks of one period, n + 1 calls from cursor 0. */
  function Period(n: nat): seq<nat>
    requires n > 0
  {
    Picks(n, 0, n + 1)
  }

  /** How many times index `x` occurs among the picks `s`. */
  function Visits(s: seq<nat>, x: nat): nat {
    multiset(s)[x]
  }

  /** Once a selection has run, the cursor lies in [0, n]. */
  lemma {:induction false} CursorBounded(n: nat, c: nat, k: nat)
    requires n > 0 && k > 0
    ensures Cursor(n, c, k) <= n
  {
  }

  /** Selections compose: k calls after j calls are j + k calls. */
  lemma {:induction false} CursorCompose(n: nat, c: nat, j: nat, k: nat)
    requires n > 0
    ensures Cursor(n, c, j + k) == Cursor(n, Cursor(n, c, j), k)
  {
    if k > 0 {
      CursorCompose(n, c, j, k - 1);
    }
  }

  /** From cursor 0 the first n calls move the cursor one step each. */
  lemma {:induction false} CursorClimbs(n: nat, j: nat)
    requires n > 0 && j <= n
    ensures Cursor(n, 0, j) == j
  {
    if j > 0 {
      CursorClimbs(n, j - 1);
    }
  }

  /** From cursor 0, n + 1 calls bring the cursor back to 0. */
  lemma CursorReturns(n: nat)
    requires n > 0
    ensures Cursor(n, 0, n + 1) == 0
  {
    CursorClimbs(n, n);
  }

  /**
   * From cursor 0, after q full periods of n + 1 calls and r <= n further
   * calls the cursor is r, so call q * (n + 1) + r returns r, except that
   * r == n returns 0 again.
   */
  lemma {:induction false} PickFromZero(n: nat, q: nat, r: nat)
    requires n > 0 && r <= n
    ensures Cursor(n, 0, q * (n + 1) + r) == r
    ensures PickAt(n, 0, q * (n + 1) + r) == if r < n then r else 0
  {
    if q == 0 {
      CursorClimbs(n, r);
    } else {
      PickFromZero(n, q - 1, r);
      var k := (q - 1) * (n + 1) + r;
      assert q * (n + 1) + r == (n + 1) + k;
      CursorCompose(n, 0, n + 1, k);
      CursorReturns(n);
    }
  }

  /**
   * From cursor 0 the first n calls return 0, 1, ..., n - 1 and leave the
   * cursor at n; call n + 1 returns 0 and resets the cursor to 0; call
   * n + 2 returns 0 once more.
   */
  lemma {:induction false} FirstRound(n: nat)
    requires n > 0
    ensures Picks(n, 0, n) == Indices(n) && Cursor(n, 0, n) == n
    ensures PickAt(n, 0, n) == 0 && Cursor(n, 0, n + 1) == 0
    ensures PickAt(n, 0, n + 1) == 0
  {
    forall j | 0 <= j < n ensures PickAt(n, 0, j) == j {
      CursorClimbs(n, j);
    }
    CursorClimbs(n, n);
    CursorReturns(n);
  }

  /** The rotation repeats with period n + 1 from any cursor in [0, n]. */
  lemma {:induction false} Periodic(n: nat, c: nat, k: nat)
    requires n > 0 && c <= n
    ensures Cursor(n, c, k + n + 1) == Cursor(n, c, k)
    ensures PickAt(n, c, k + n + 1) == PickAt(n, c, k)
  {
    CursorClimbs(n, c);
    CursorReturns(n);
    CursorCompose(n, 0, c, n + 1);
    CursorCompose(n, 0, n + 1, c);
    assert Cursor(n, c, n + 1) == c;
    CursorCompose(n, c, n + 1, k);
  }

  /** One full period from cursor 0 picks index 0 twice and every other index once. */
  lemma {:induction false} PeriodCounts(n: nat)
    requires n > 0
    ensures Period(n) == Indices(n) + [0]
    ensures Visits(Period(n), 0) == 2
    ensures forall x: nat :: 0 < x < n ==> Visits(Period(n), x) == 1
  {
    FirstRound(n);
    IndicesOnce(n);
  }

  lemma {:induction false} IndicesOnce(n: nat)
    ensures forall x: nat :: x < n ==> multiset(Indices(n))[x] == 1
    ensures forall x: nat :: x >= n ==> multiset(Indices(n))[x] == 0
  {
    if n > 0 {
      IndicesOnce(n - 1);
      assert Indices(n) == Indices(n - 1) + [n - 1];
      assert multiset(Indices(n)) == multiset(Indices(n - 1)) + multiset{(n - 1) as nat};
    }
  }

  lemma {:induction false} CursorFromTop(n: nat, j: nat)
    requires n > 0 && 0 < j <= n + 1
    ensures Cursor(n, n, j) == j - 1
  {
    if j > 1 {
      CursorFromTop(n, j - 1);
    }
  }

  /**
   * The rule is not a strict round robin: from cursor n (where the first
   * round leaves it), n calls with n >= 2 return index 0 twice and never
   * return index n - 1.
   */
  lemma {:induction false} NotStrictRoundRobin(n: nat)
    requires n >= 2
    ensures Picks(n, n, n) == [0] + Indices(n - 1)
    ensures n - 1 !in Picks(n, n, n)
  {
    forall j | 1 <= j < n ensures PickAt(n, n, j) == j - 1 {
      CursorFromTop(n, j);
    }
  }
}
