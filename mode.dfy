/**
 * The `mode` helper of the forecast summariser (public/script.js): the most
 * frequent value of a list, found by one left-to-right scan that keeps a
 * count table, the largest count seen so far and the value that reached it.
 */
module Mode {
  import opened Wrappers

  /** How many times `v` occurs in `s`. */
  function Occurrences<T(==)>(s: seq<T>, v: T): nat
  {
    multiset(s)[v]
  }

  /**
   * Index `p` is where `v` becomes the mode in a left-to-right scan of `s`:
   * no value occurs in `s` more often than `v`, the scan has seen every
   * occurrence of `v` once it has read `s[p]`, and before `s[p]` no value had
   * yet reached that count. This is the tie-break that a strict `>` update
   * gives: the first value to reach the final maximum wins.
   */
  ghost predicate BecomesModeAt<T(!new)>(s: seq<T>, v: T, p: int)
  {
    0 <= p < |s| && s[p] == v &&
    (forall u :: Occurrences(s, u) <= Occurrences(s, v)) &&
    Occurrences(s[..p + 1], v) == Occurrences(s, v) &&
    (forall u :: Occurrences(s[..p], u) < Occurrences(s, v))
  }

  /** `v` is the value the scan of `s` reports as the mode. */
  ghost predicate IsScanMode<T(!new)>(s: seq<T>, v: T)
  {
    exists p :: BecomesModeAt(s, v, p)
  }

  /** Counting in a longer prefix never gives less. */
  lemma PrefixOccurrencesGrow<T>(s: seq<T>, i: nat, j: nat, v: T)
    requires i <= j <= |s|
    ensures Occurrences(s[..i], v) <= Occurrences(s[..j], v)
  {
    assert s[..j] == s[..i] + s[i..j];
  }

  /** The tie-break pins the mode down: at most one value is the scan's mode. */
  lemma ScanModeUnique<T(!new)>(s: seq<T>, v: T, w: T)
    requires IsScanMode(s, v) && IsScanMode(s, w)
    ensures v == w
  {
    var p :| BecomesModeAt(s, v, p);
    var q :| BecomesModeAt(s, w, q);
    assert Occurrences(s, v) == Occurrences(s, w);
    if p < q {
      PrefixOccurrencesGrow(s, p + 1, q, v);
      assert false;
    } else if q < p {
      PrefixOccurrencesGrow(s, q + 1, p, w);
      assert false;
    }
  }

  /** A one-element list: its element becomes the mode at once. */
  lemma ScanStart<T(!new)>(x: T)
    ensures BecomesModeAt([x], x, 0)
  {
    assert [x][..1] == [x] && [x][..0] == [];
    assert forall u :: Occurrences([x], u) == if u == x then 1 else 0;
  }

  /**
   * One step of the scan: when `x` is read after `init`, whose mode `v`
   * arose at `p`, then `x` takes over if its count now exceeds the old
   * maximum, and otherwise `v` stays the mode, arisen at the same index.
   */
  lemma ScanStep<T(!new)>(init: seq<T>, x: T, v: T, p: int)
    requires BecomesModeAt(init, v, p)
    ensures Occurrences(init + [x], x) > Occurrences(init, v) ==> BecomesModeAt(init + [x], x, |init|)
    ensures Occurrences(init + [x], x) <= Occurrences(init, v) ==> BecomesModeAt(init + [x], v, p)
  {
    var s, n := init + [x], |init|;
    assert s[..n] == init && s[..n + 1] == s;
    assert s[..p + 1] == init[..p + 1] && s[..p] == init[..p];
    assert forall u :: Occurrences(s, u) == Occurrences(init, u) + (if u == x then 1 else 0);
  }

  /**
   * The scan as a function: after reading `s`, the value holding the
   * largest count and that count. A value takes over only when its count
   * strictly exceeds the count held so far.
   */
  function Scan<T(==)>(s: seq<T>): (Option<T>, nat)
  {
    if s == [] then (None, 0)
    else
      var held := Scan(s[..|s| - 1]);
      var x := s[|s| - 1];
      if Occurrences(s, x) > held.1 then (Some(x), Occurrences(s, x)) else held
  }

  /**
   * What the scan holds after a non-empty list is its scan mode, with that
   * value's count: either the old mode stays or the new value overtakes it.
   */
  lemma {:induction false} ScanFindsScanMode<T(!new)>(s: seq<T>)
    requires s != []
    ensures Scan(s).0.Some?
    ensures Scan(s).1 == Occurrences(s, Scan(s).0.value)
    ensures IsScanMode(s, Scan(s).0.value)
  {
    var n := |s| - 1;
    var x, init := s[n], s[..n];
    assert s == init + [x];
    if init == [] {
      ScanStart(x);
      assert IsScanMode(s, x);
    } else {
      ScanFindsScanMode(init);
      var v := Scan(init).0.value;
      var p :| BecomesModeAt(init, v, p);
      ScanStep(init, x, v, p);
      if Occurrences(s, x) > Occurrences(init, v) {
        assert IsScanMode(s, x);
      } else {
        assert x != v;
        assert IsScanMode(s, v);
      }
    }
  }

  /** The mode of a non-empty list, as the scan reports it. */
  ghost function ModeOf<T(!new)>(s: seq<T>): T
    requires s != []
  {
    ScanFindsScanMode(s);
    Scan(s).0.value
  }

  /**
   * The mode of a non-empty list is one of its elements, no value occurs
   * more often, and it is the first value to reach that count.
   */
  lemma ModeOfIsScanMode<T(!new)>(s: seq<T>)
    requires s != []
    ensures ModeOf(s) in s
    ensures forall u :: Occurrences(s, u) <= Occurrences(s, ModeOf(s))
    ensures IsScanMode(s, ModeOf(s))
  {
    ScanFindsScanMode(s);
    var p :| BecomesModeAt(s, ModeOf(s), p);
  }

  /** `ModeOf` is exactly the value meeting the scan-mode description. */
  lemma ModeOfCharacterised<T(!new)>(s: seq<T>, v: T)
    requires s != []
    ensures IsScanMode(s, v) <==> v == ModeOf(s)
  {
    ModeOfIsScanMode(s);
    if IsScanMode(s, v) {
      ScanModeUnique(s, v, ModeOf(s));
    }
  }

  /** `[a, b, b, a]`: both values occur twice, `b` reaches two first and wins. */
  lemma TieBreakExample<T(!new)>(a: T, b: T)
    requires a != b
    ensures IsScanMode([a, b, b, a], b)
    ensures !IsScanMode([a, b, b, a], a)
  {
    var s := [a, b, b, a];
    assert multiset(s) == multiset{a, a, b, b};
    assert s[..3] == [a, b, b] && multiset(s[..3]) == multiset{a, b, b};
    assert s[..2] == [a, b] && multiset(s[..2]) == multiset{a, b};
    assert forall u :: Occurrences(s, u) <= Occurrences(s, b) by {
      forall u ensures Occurrences(s, u) <= Occurrences(s, b) {
        if u != a && u != b {
          assert Occurrences(s, u) == 0;
        }
      }
    }
    assert forall u :: Occurrences(s[..2], u) < Occurrences(s, b) by {
      forall u ensures Occurrences(s[..2], u) < Occurrences(s, b) {
        if u != a && u != b {
          assert Occurrences(s[..2], u) == 0;
        }
      }
    }
    assert BecomesModeAt(s, b, 2);
    if IsScanMode(s, a) {
      ScanModeUnique(s, a, b);
    }
  }

  /**
   * The scan itself. It returns `None` (JavaScript's `undefined`) exactly for
   * the empty list; otherwise an element of the list that occurs at least as
   * often as any other value and is the first to reach that count.
   */
  method Mode<T(==, !new)>(s: seq<T>) returns (r: Option<T>)
    ensures r.None? <==> s == []
    ensures r.Some? ==> r.value == ModeOf(s)
  {
    var count: map<T, nat> := map[];
    var maxCount := 0;
    r := None;
    for i := 0 to |s|
      invariant forall u :: u in count ==> count[u] == Occurrences(s[..i], u)
      invariant forall u :: u !in count ==> Occurrences(s[..i], u) == 0
      invariant (r, maxCount) == Scan(s[..i])
    {
      var value := s[i];
      ghost var next := s[..i + 1];
      assert next == s[..i] + [value] && next[..i] == s[..i];
      assert multiset(next) == multiset(s[..i]) + multiset{value};
      ghost var c := Occurrences(next, value);
      assert c == Occurrences(s[..i], value) + 1;
      assert Scan(next) == if c > maxCount then (Some(value), c) else (r, maxCount);
      count := count[value := (if value in count then count[value] else 0) + 1];
      if count[value] > maxCount {
        maxCount := count[value];
        r := Some(value);
      }
    }
    assert s[..|s|] == s;
    if s != [] {
      ScanFindsScanMode(s);
    }
  }
}
