/** Small vocabulary shared by every module. */
module Common {
  datatype Option<+T> = None | Some(value: T)

  /** What the network does with one request to a remote service.
      - Delivered: the service handles the request and its reply arrives.
      - Dropped:   the request has no effect and the caller sees an error.
      - ReplyLost: the service handles the request, but the caller sees an error. */
  datatype Fate = Delivered | Dropped | ReplyLost

  /** `s` without its element at `i`. */
  function Without<T>(s: seq<T>, i: nat): seq<T>
    requires i < |s|
  {
    s[..i] + s[i + 1..]
  }

  lemma WithoutMultiset<T>(s: seq<T>, i: nat)
    requires i < |s|
    ensures multiset(s) == multiset(Without(s, i)) + multiset{s[i]}
  {
    assert s == s[..i] + [s[i]] + s[i + 1..];
  }

  /** A rearrangement of `a` that ends like `a` can be shortened on both sides. */
  lemma DropLast<T>(a: seq<T>, b: seq<T>) returns (i: nat)
    requires multiset(a) == multiset(b) && a != []
    ensures i < |b| && b[i] == a[|a| - 1]
    ensures multiset(a[..|a| - 1]) == multiset(Without(b, i))
  {
    assert a == a[..|a| - 1] + [a[|a| - 1]];
    assert a[|a| - 1] in multiset(b);
    i :| 0 <= i < |b| && b[i] == a[|a| - 1];
    WithoutMultiset(b, i);
    assert multiset(a) == multiset(a[..|a| - 1]) + multiset{a[|a| - 1]};
    assert multiset(a[..|a| - 1]) == multiset(a) - multiset{a[|a| - 1]};
    assert multiset(Without(b, i)) == multiset(b) - multiset{b[i]};
  }
}
