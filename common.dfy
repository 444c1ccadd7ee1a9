/** Shared vocabulary: peer addresses, player ids, optional values and the
    order-preserving removal that Python's insertion-ordered dicts perform. */
module Common {

  datatype Option<+T> = None | Some(value: T)

  /** A peer's transport address, the (host, port) pair a datagram came from. */
  datatype Addr = Addr(host: string, port: int)

  /** The server keys every table by `str(addr)`. That rendering is
      injective, so the model keys them by the address itself. */
  type Pid = Addr

  predicate Distinct<T(==)>(s: seq<T>) {
    forall i, j | 0 <= i < j < |s| :: s[i] != s[j]
  }

  /** `s` with every occurrence of `x` removed, the other elements kept in
      their order: deleting a key from an insertion-ordered dict. */
  function Without<T(==)>(s: seq<T>, x: T): (r: seq<T>)
    ensures forall y | y in r :: y in s && y != x
    ensures forall y | y in s && y != x :: y in r
    ensures |r| <= |s|
    ensures Distinct(s) ==> Distinct(r)
    ensures Distinct(s) && x in s ==> |r| == |s| - 1
    ensures x !in s ==> r == s
  {
    if s == [] then []
    else if s[0] == x then Without(s[1..], x)
    else
      var rest := Without(s[1..], x);
      assert Distinct(s) ==> s[0] !in rest;
      [s[0]] + rest
  }

  /** Deleting a key that sits at position `k` leaves the keys before it
      and the keys after it, each in their order. */
  lemma {:induction false} WithoutAt<T>(s: seq<T>, x: T, k: int)
    requires Distinct(s) && 0 <= k < |s| && s[k] == x
    ensures Without(s, x) == s[..k] + s[k + 1..]
  {
    if k == 0 {
      assert x !in s[1..];
    } else {
      assert Distinct(s[1..]) by {
        forall i, j | 0 <= i < j < |s[1..]| ensures s[1..][i] != s[1..][j] {
          assert s[1..][i] == s[i + 1] && s[1..][j] == s[j + 1];
        }
      }
      WithoutAt(s[1..], x, k - 1);
      assert s[1..][..k - 1] == s[1..k];
      assert s[1..][k..] == s[k + 1..];
      assert s[..k] + s[k + 1..] == [s[0]] + (s[1..k] + s[k + 1..]);
    }
  }

  /** The first element of `Without(s, x)` is the earliest element of `s`
      that is not `x`: every element before it in `s` is `x`. */
  lemma {:induction false} WithoutHeadIsEarliest<T>(s: seq<T>, x: T)
    requires Without(s, x) != []
    ensures exists k :: 0 <= k < |s| && s[k] == Without(s, x)[0] && forall j :: 0 <= j < k ==> s[j] == x
  {
    if s[0] == x {
      WithoutHeadIsEarliest(s[1..], x);
      var k :| 0 <= k < |s[1..]| && s[1..][k] == Without(s[1..], x)[0]
                && forall j :: 0 <= j < k ==> s[1..][j] == x;
      assert s[k + 1] == Without(s, x)[0];
      assert forall j :: 0 <= j < k + 1 ==> s[j] == x by {
        forall j | 0 <= j < k + 1 ensures s[j] == x {
          if j > 0 { assert s[j] == s[1..][j - 1]; }
        }
      }
    } else {
      assert s[0] == Without(s, x)[0];
    }
  }
}
