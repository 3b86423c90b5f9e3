/** Facts about Python lists and the sets of their elements. */
module Lists {
  import opened Wrappers

  /** Python's `list.index`: the first position of `x`, or `None` where Python raises ValueError. */
  function IndexOf<T(==)>(xs: seq<T>, x: T): (r: Option<nat>)
    ensures r.Some? ==> r.value < |xs| && xs[r.value] == x && x !in xs[..r.value]
    ensures r.None? ==> x !in xs
  {
    if xs == [] then None
    else if xs[0] == x then Some(0)
    else match IndexOf(xs[1..], x)
      case None => None
      case Some(i) => Some(i + 1)
  }

  /** The elements of a list, as a set. */
  function Elems<T>(s: seq<T>): set<T> {
    set x | x in s
  }

  /** No element occurs twice. */
  predicate Distinct<T(==)>(s: seq<T>) {
    forall i, j :: 0 <= i < j < |s| ==> s[i] != s[j]
  }

  lemma {:induction false} ElemsCard<T>(s: seq<T>)
    ensures |Elems(s)| <= |s|
    ensures Distinct(s) ==> |Elems(s)| == |s|
    decreases |s|
  {
    if s != [] {
      var init := s[..|s| - 1];
      ElemsCard(init);
      assert Elems(s) == Elems(init) + {s[|s| - 1]};
    }
  }

  lemma {:induction false} SubsetCard<T>(a: set<T>, b: set<T>)
    requires a <= b
    ensures |a| <= |b|
    decreases |a|
  {
    if a != {} {
      var x :| x in a;
      SubsetCard(a - {x}, b - {x});
    }
  }

  /** `s` without the elements of `drop`, the rest in their order. */
  function Without<T(==,!new)>(s: seq<T>, drop: set<T>): (r: seq<T>)
    ensures forall x :: x in r <==> x in s && x !in drop
    ensures |r| <= |s|
  {
    if s == [] then []
    else if s[0] in drop then Without(s[1..], drop)
    else [s[0]] + Without(s[1..], drop)
  }

  /** `r` is `s` with some elements left out. */
  predicate IsSubsequence<T(==)>(r: seq<T>, s: seq<T>)
    decreases |s|
  {
    r == [] || (s != [] && (if r[0] == s[0] then IsSubsequence(r[1..], s[1..]) else IsSubsequence(r, s[1..])))
  }

  /** A filter step keeps order: `s[0]`, when kept, goes in front of a subsequence of the tail. */
  lemma ConsKeepsOrder<T>(s: seq<T>, rest: seq<T>, keep: bool)
    requires s != [] && IsSubsequence(rest, s[1..])
    requires !keep ==> rest == [] || rest[0] != s[0]
    ensures IsSubsequence((if keep then [s[0]] else []) + rest, s)
  {
    var r := (if keep then [s[0]] else []) + rest;
    if keep {
      assert r[0] == s[0] && r[1..] == rest;
    } else {
      assert r == rest;
    }
  }

  lemma {:induction false} WithoutKeepsOrder<T(!new)>(s: seq<T>, drop: set<T>)
    ensures IsSubsequence(Without(s, drop), s)
    ensures Distinct(s) ==> Distinct(Without(s, drop))
    decreases |s|
  {
    if s != [] {
      WithoutKeepsOrder(s[1..], drop);
      var r := Without(s[1..], drop);
      if s[0] in drop {
        assert r != [] ==> r[0] != s[0] by {
          if r != [] {
            assert r[0] in r;
          }
        }
      } else {
        assert ([s[0]] + r)[1..] == r;
      }
      if s[0] !in drop && Distinct(s) {
        assert Distinct(s[1..]) by {
          forall i, j | 0 <= i < j < |s[1..]| ensures s[1..][i] != s[1..][j] {
            assert s[1..][i] == s[i + 1] && s[1..][j] == s[j + 1];
          }
        }
        assert s[0] !in Elems(s[1..]) by {
          forall x | x in s[1..] ensures x != s[0] {
            var j :| 0 <= j < |s[1..]| && s[1..][j] == x;
            assert s[j + 1] == x;
          }
        }
        assert s[0] !in r by {
          assert s[0] !in Elems(r);
        }
        forall i, j | 0 <= i < j < |[s[0]] + r| ensures ([s[0]] + r)[i] != ([s[0]] + r)[j] {
          if i == 0 {
            assert ([s[0]] + r)[j] == r[j - 1];
          } else {
            assert ([s[0]] + r)[i] == r[i - 1] && ([s[0]] + r)[j] == r[j - 1];
          }
        }
      }
    }
  }

  lemma {:induction false} WithoutNothing<T(!new)>(s: seq<T>)
    ensures Without(s, {}) == s
    decreases |s|
  {
    if s != [] {
      WithoutNothing(s[1..]);
      assert s == [s[0]] + s[1..];
    }
  }
}
