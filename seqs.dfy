/**
 * The two list-building shapes the scanner's loops share: keeping the present results of a run
 * of attempts (`filter_map`, or a loop that pushes on success), and concatenating per-item result
 * lists (`extend` in a loop, `flatten`).
 */
module Seqs {
  import opened Wrappers

  /** The values of the `Some` entries of `xs`, in order. */
  function Somes<T>(xs: seq<Option<T>>): seq<T> {
    if xs == [] then []
    else
      match xs[|xs| - 1]
      case None => Somes(xs[..|xs| - 1])
      case Some(v) => Somes(xs[..|xs| - 1]) + [v]
  }

  /** `v` is kept exactly when some entry is `Some(v)`. */
  lemma {:induction false} SomesMember<T>(xs: seq<Option<T>>, v: T)
    ensures v in Somes(xs) <==> exists i | 0 <= i < |xs| :: xs[i] == Some(v)
  {
    if xs != [] {
      var init := xs[..|xs| - 1];
      SomesMember(init, v);
      if exists i | 0 <= i < |init| :: init[i] == Some(v) {
        var i :| 0 <= i < |init| && init[i] == Some(v);
        assert xs[i] == init[i];
      }
      if exists i | 0 <= i < |xs| :: xs[i] == Some(v) {
        var i :| 0 <= i < |xs| && xs[i] == Some(v);
        if i < |init| {
          assert init[i] == xs[i];
        }
      }
    }
  }

  /** Keeping distributes over concatenation. */
  lemma {:induction false} SomesAppend<T>(a: seq<Option<T>>, b: seq<Option<T>>)
    ensures Somes(a + b) == Somes(a) + Somes(b)
    decreases |b|
  {
    if b == [] {
      assert a + b == a;
    } else {
      assert (a + b)[..|a + b| - 1] == a + b[..|b| - 1];
      assert (a + b)[|a + b| - 1] == b[|b| - 1];
      SomesAppend(a, b[..|b| - 1]);
    }
  }

  /** At most one value per entry. */
  lemma {:induction false} SomesLength<T>(xs: seq<Option<T>>)
    ensures |Somes(xs)| <= |xs|
  {
    if xs != [] {
      SomesLength(xs[..|xs| - 1]);
    }
  }

  /** Without a `Some` entry nothing is kept. */
  lemma {:induction false} SomesNone<T>(xs: seq<Option<T>>)
    requires forall i | 0 <= i < |xs| :: xs[i].None?
    ensures Somes(xs) == []
  {
    if xs != [] {
      SomesNone(xs[..|xs| - 1]);
    }
  }

  /** The lists of `xss`, one after another. */
  function Flatten<T>(xss: seq<seq<T>>): seq<T> {
    if xss == [] then [] else Flatten(xss[..|xss| - 1]) + xss[|xss| - 1]
  }

  /** Flattening one more list appends it. */
  lemma FlattenSnoc<T>(xss: seq<seq<T>>, i: nat)
    requires i < |xss|
    ensures Flatten(xss[..i + 1]) == Flatten(xss[..i]) + xss[i]
  {
    assert xss[..i + 1][..i] == xss[..i];
  }

  /** Flattening distributes over concatenation, so the order of the lists is kept. */
  lemma {:induction false} FlattenAppend<T>(a: seq<seq<T>>, b: seq<seq<T>>)
    ensures Flatten(a + b) == Flatten(a) + Flatten(b)
    decreases |b|
  {
    if b == [] {
      assert a + b == a;
    } else {
      assert (a + b)[..|a + b| - 1] == a + b[..|b| - 1];
      FlattenAppend(a, b[..|b| - 1]);
    }
  }

  /** An element of the flattened list is an element of one of the lists. */
  lemma {:induction false} FlattenMember<T>(xss: seq<seq<T>>, v: T)
    ensures v in Flatten(xss) <==> exists j | 0 <= j < |xss| :: v in xss[j]
  {
    if xss != [] {
      var init := xss[..|xss| - 1];
      FlattenMember(init, v);
      if exists j | 0 <= j < |init| :: v in init[j] {
        var j :| 0 <= j < |init| && v in init[j];
        assert xss[j] == init[j];
      }
      if exists j | 0 <= j < |xss| :: v in xss[j] {
        var j :| 0 <= j < |xss| && v in xss[j];
        if j < |init| {
          assert init[j] == xss[j];
        }
      }
    }
  }

  /** Lists of at most `n` elements flatten to at most `|xss| * n` elements. */
  lemma {:induction false} FlattenLength<T>(xss: seq<seq<T>>, n: nat)
    requires forall j | 0 <= j < |xss| :: |xss[j]| <= n
    ensures |Flatten(xss)| <= |xss| * n
  {
    if xss != [] {
      var k := |xss| - 1;
      FlattenLength(xss[..k], n);
      assert |xss| * n == k * n + n;
    }
  }

  /** The lists of `rs` concatenated in order, or the error of the first failure among them. */
  function Collect<T, E>(rs: seq<Result<seq<T>, E>>): Result<seq<T>, E> {
    if rs == [] then Success([])
    else
      match Collect(rs[..|rs| - 1])
      case Failure(e) => Failure(e)
      case Success(vs) =>
        match rs[|rs| - 1]
        case Failure(e) => Failure(e)
        case Success(ws) => Success(vs + ws)
  }

  /** Once a prefix has failed, collecting the whole list fails with the same error. */
  lemma {:induction false} CollectFailureSticks<T, E>(rs: seq<Result<seq<T>, E>>, k: nat)
    requires k <= |rs| && Collect(rs[..k]).Failure?
    ensures Collect(rs) == Collect(rs[..k])
    decreases |rs| - k
  {
    if k < |rs| {
      assert rs[..k + 1][..k] == rs[..k];
      CollectFailureSticks(rs, k + 1);
    } else {
      assert rs[..k] == rs;
    }
  }

  /** Collecting one more entry after a successful prefix: its error, or its list appended. */
  lemma CollectSnoc<T, E>(rs: seq<Result<seq<T>, E>>, i: nat, vs: seq<T>)
    requires i < |rs| && Collect(rs[..i]) == Success(vs)
    ensures rs[i].Failure? ==> Collect(rs[..i + 1]) == Failure(rs[i].error)
    ensures rs[i].Success? ==> Collect(rs[..i + 1]) == Success(vs + rs[i].value)
  {
    assert rs[..i + 1][..i] == rs[..i];
  }

  /** The lists of a run of successes. */
  function Values<T, E>(rs: seq<Result<seq<T>, E>>): seq<seq<T>>
    requires forall i | 0 <= i < |rs| :: rs[i].Success?
  {
    seq(|rs|, i requires 0 <= i < |rs| => rs[i].value)
  }

  /** Collecting succeeds exactly when every entry does, and then it is their concatenation. */
  lemma {:induction false} CollectSuccess<T, E>(rs: seq<Result<seq<T>, E>>)
    ensures Collect(rs).Success? <==> forall i | 0 <= i < |rs| :: rs[i].Success?
    ensures Collect(rs).Success? ==> Collect(rs).value == Flatten(Values(rs))
  {
    if rs != [] {
      var k := |rs| - 1;
      var init := rs[..k];
      CollectSuccess(init);
      if forall i | 0 <= i < |rs| :: rs[i].Success? {
        assert forall i | 0 <= i < |init| :: init[i] == rs[i];
        assert Values(rs)[..k] == Values(init);
      } else {
        var i :| 0 <= i < |rs| && rs[i].Failure?;
        if i < k {
          assert init[i] == rs[i];
        }
      }
    }
  }

  /** A failed collection returns the error of an entry all of whose predecessors succeeded. */
  lemma {:induction false} CollectFirstFailure<T, E>(rs: seq<Result<seq<T>, E>>) returns (k: nat)
    requires Collect(rs).Failure?
    ensures k < |rs| && rs[k] == Collect(rs)
    ensures forall i | 0 <= i < k :: rs[i].Success?
  {
    var last := |rs| - 1;
    var init := rs[..last];
    if Collect(init).Failure? {
      k := CollectFirstFailure(init);
      assert init[k] == rs[k];
      assert forall i | 0 <= i < k :: init[i] == rs[i];
    } else {
      k := last;
      CollectSuccess(init);
      assert forall i | 0 <= i < k :: init[i] == rs[i];
    }
  }

  /** The pieces `f(n, xs[0])`, `f(n + 1, xs[1])`, ... concatenated: an enumeration starting at `n`. */
  function Enumerate<T, U>(f: (nat, T) -> seq<U>, xs: seq<T>, n: nat): seq<U>
    decreases |xs|
  {
    if xs == [] then [] else f(n, xs[0]) + Enumerate(f, xs[1..], n + 1)
  }

  /** Enumerating a concatenation: the second part's numbering continues after the first part's. */
  lemma {:induction false} EnumerateAppend<T, U>(f: (nat, T) -> seq<U>, a: seq<T>, b: seq<T>, n: nat)
    ensures Enumerate(f, a + b, n) == Enumerate(f, a, n) + Enumerate(f, b, n + |a|)
    decreases |a|
  {
    if a == [] {
      assert a + b == b;
    } else {
      assert (a + b)[1..] == a[1..] + b;
      EnumerateAppend(f, a[1..], b, n + 1);
    }
  }

  /** Item `i` is numbered `n + i`, between the items before it and those after it. */
  lemma EnumerateAt<T, U>(f: (nat, T) -> seq<U>, xs: seq<T>, i: nat, n: nat)
    requires i < |xs|
    ensures Enumerate(f, xs, n) == Enumerate(f, xs[..i], n) + f(n + i, xs[i]) + Enumerate(f, xs[i + 1..], n + i + 1)
  {
    assert xs == xs[..i] + ([xs[i]] + xs[i + 1..]);
    EnumerateAppend(f, xs[..i], [xs[i]] + xs[i + 1..], n);
    assert ([xs[i]] + xs[i + 1..])[1..] == xs[i + 1..];
  }

  /** Enumerating one more item appends its piece, numbered after the others. */
  lemma EnumerateSnoc<T, U>(f: (nat, T) -> seq<U>, xs: seq<T>, x: T, n: nat)
    ensures Enumerate(f, xs + [x], n) == Enumerate(f, xs, n) + f(n + |xs|, x)
  {
    EnumerateAppend(f, xs, [x], n);
    assert [x][1..] == [];
    assert f(n + |xs|, x) + [] == f(n + |xs|, x);
  }
}
