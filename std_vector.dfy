/**
 * The `std::vector` idioms the scene code relies on, over Dafny sequences:
 * `std::find` (first position or end), `erase` of one position, the
 * find-then-erase and find-then-push_back patterns, the nullable
 * pointer as an `Option`, and the character a decimal digit prints as.
 */
module StdVector {

  /** A host pointer that may be null. */
  datatype Option<T> = None | Some(value: T)

  /** The character of a decimal digit, as `%d` and `std::to_string` print it. */
  function DigitChar(d: nat): char
    requires d < 10
  {
    ('0' as int + d) as char
  }

  /** No element occurs twice. */
  predicate NoDup<T(==)>(s: seq<T>)
  {
    forall i, j :: 0 <= i < j < |s| ==> s[i] != s[j]
  }

  /** `std::find(s.begin(), s.end(), x) - s.begin()`: the first position of `x`, or `|s|` (end()). */
  function Find<T(==)>(s: seq<T>, x: T): (i: nat)
    ensures i <= |s|
    ensures i < |s| ==> s[i] == x
    ensures forall k :: 0 <= k < i ==> s[k] != x
  {
    if s == [] then 0
    else if s[0] == x then 0
    else 1 + Find(s[1..], x)
  }

  /** `s.erase(s.begin() + i)`. */
  function EraseAt<T>(s: seq<T>, i: nat): (r: seq<T>)
    requires i < |s|
    ensures |r| == |s| - 1
    ensures forall k :: 0 <= k < i ==> r[k] == s[k]
    ensures forall k :: i <= k < |r| ==> r[k] == s[k + 1]
  {
    s[..i] + s[i + 1..]
  }

  /** Find `x` and erase it when found; otherwise leave the vector alone. */
  function RemoveFirst<T(==)>(s: seq<T>, x: T): seq<T>
  {
    var i := Find(s, x);
    if i < |s| then EraseAt(s, i) else s
  }

  /** Find `x` and push it back only when it was not found. */
  function AppendAbsent<T(==)>(s: seq<T>, x: T): seq<T>
  {
    if Find(s, x) < |s| then s else s + [x]
  }

  /** The set of elements of a vector. */
  function Elems<T>(s: seq<T>): set<T>
  {
    set x | x in s
  }

  lemma ElemsSnoc<T>(s: seq<T>, x: T)
    ensures Elems(s + [x]) == Elems(s) + {x}
  {
  }

  /** The elements of `s` that are not in `xs`, in their original order. */
  function Without<T(==)>(s: seq<T>, xs: set<T>): seq<T>
  {
    if s == [] then []
    else (if s[0] in xs then [] else [s[0]]) + Without(s[1..], xs)
  }

  /** `Find` reports end() exactly when the element is absent. */
  lemma FindAbsent<T>(s: seq<T>, x: T)
    ensures Find(s, x) == |s| <==> x !in s
  {
  }

  /** Pushing `x` back does not move where `x` is found: its old first position, or the new last one. */
  lemma {:induction false} FindSnoc<T>(s: seq<T>, x: T)
    ensures Find(s + [x], x) == Find(s, x)
  {
    if s != [] && s[0] != x {
      assert (s + [x])[1..] == s[1..] + [x];
      FindSnoc(s[1..], x);
    }
  }

  /** Find-then-erase right after pushing `x` back: the pushed copy goes when `x` was absent, the earlier copy otherwise. */
  lemma RemoveFirstSnoc<T>(s: seq<T>, x: T)
    ensures x !in s ==> RemoveFirst(s + [x], x) == s
    ensures x in s ==> RemoveFirst(s + [x], x) == RemoveFirst(s, x) + [x]
  {
    var t := s + [x];
    FindSnoc(s, x);
    FindAbsent(s, x);
    var i := Find(s, x);
    assert t[..i] == s[..i];
    if x !in s {
      assert t[..i] + t[i + 1..] == s;
    } else {
      assert t[i + 1..] == s[i + 1..] + [x];
      assert t[..i] + t[i + 1..] == (s[..i] + s[i + 1..]) + [x];
    }
  }

  /** In a duplicate-free vector every element is found at its own position. */
  lemma FindNoDup<T>(s: seq<T>, i: nat)
    requires NoDup(s) && i < |s|
    ensures Find(s, s[i]) == i
  {
  }

  /** Removing an element keeps all others, drops exactly one copy of it and changes nothing when it is absent. */
  lemma RemoveFirstMultiset<T>(s: seq<T>, x: T)
    ensures x !in s ==> RemoveFirst(s, x) == s
    ensures x in s ==> multiset(RemoveFirst(s, x)) == multiset(s) - multiset{x}
  {
    var i := Find(s, x);
    if i < |s| {
      assert s == s[..i] + [x] + s[i + 1..];
      assert RemoveFirst(s, x) == s[..i] + s[i + 1..];
    }
  }

  /** The tail of a duplicate-free vector is duplicate-free and lacks the head. */
  lemma NoDupTail<T>(s: seq<T>)
    requires NoDup(s) && s != []
    ensures NoDup(s[1..]) && s[0] !in s[1..]
  {
    forall i, j | 0 <= i < j < |s[1..]| ensures s[1..][i] != s[1..][j] {
      assert s[1..][i] == s[i + 1] && s[1..][j] == s[j + 1];
    }
    forall k | 0 <= k < |s[1..]| ensures s[1..][k] != s[0] {
      assert s[1..][k] == s[k + 1];
    }
  }

  /** Putting an absent element in front keeps a vector duplicate-free. */
  lemma NoDupCons<T>(h: T, t: seq<T>)
    requires NoDup(t) && h !in t
    ensures NoDup([h] + t)
  {
    var r := [h] + t;
    forall i, j | 0 <= i < j < |r| ensures r[i] != r[j] {
      assert r[j] == t[j - 1];
      if i > 0 {
        assert r[i] == t[i - 1];
      }
    }
  }

  /** Removing something other than the head removes it from the tail. */
  lemma RemoveFirstCons<T>(s: seq<T>, x: T)
    requires s != [] && s[0] != x
    ensures RemoveFirst(s, x) == [s[0]] + RemoveFirst(s[1..], x)
  {
    assert Find(s, x) == 1 + Find(s[1..], x);
    if Find(s[1..], x) < |s[1..]| {
      assert EraseAt(s, Find(s, x)) == [s[0]] + EraseAt(s[1..], Find(s[1..], x));
    }
  }

  /** On a duplicate-free vector, removing `x` is filtering `x` out; the result is still duplicate-free. */
  lemma {:induction false} RemoveFirstIsWithout<T>(s: seq<T>, x: T)
    requires NoDup(s)
    ensures RemoveFirst(s, x) == Without(s, {x})
    ensures NoDup(RemoveFirst(s, x)) && x !in RemoveFirst(s, x)
  {
    if s != [] {
      NoDupTail(s);
      RemoveFirstIsWithout(s[1..], x);
      if s[0] == x {
        WithoutAbsent(s[1..], {x});
      } else {
        RemoveFirstCons(s, x);
        WithoutSubset(s[1..], {x});
        NoDupCons(s[0], RemoveFirst(s[1..], x));
      }
    }
  }

  /** Filtering out elements that are absent changes nothing. */
  lemma {:induction false} WithoutAbsent<T>(s: seq<T>, xs: set<T>)
    requires forall k :: 0 <= k < |s| ==> s[k] !in xs
    ensures Without(s, xs) == s
  {
    if s != [] {
      WithoutAbsent(s[1..], xs);
      assert [s[0]] + s[1..] == s;
    }
  }

  /** Filtering the head out of a duplicate-free vector leaves its tail. */
  lemma WithoutHead<T>(s: seq<T>)
    requires NoDup(s) && s != []
    ensures Without(s, {s[0]}) == s[1..]
  {
    NoDupTail(s);
    forall k | 0 <= k < |s[1..]| ensures s[1..][k] !in {s[0]} {
    }
    WithoutAbsent(s[1..], {s[0]});
  }

  /** Filtering keeps exactly the elements of `s` outside `xs`. */
  lemma {:induction false} WithoutSubset<T>(s: seq<T>, xs: set<T>)
    ensures forall y :: y in Without(s, xs) <==> y in s && y !in xs
  {
    if s != [] {
      WithoutSubset(s[1..], xs);
      forall y ensures y in s <==> y == s[0] || y in s[1..] {
        assert s == [s[0]] + s[1..];
      }
    }
  }

  /** Filtering twice is filtering by the union. */
  lemma {:induction false} WithoutWithout<T>(s: seq<T>, xs: set<T>, ys: set<T>)
    ensures Without(Without(s, xs), ys) == Without(s, xs + ys)
  {
    if s != [] {
      WithoutWithout(s[1..], xs, ys);
      var head := if s[0] in xs then [] else [s[0]];
      WithoutAppend(head, Without(s[1..], xs), ys);
      if s[0] !in xs {
        assert Without(head, ys) == (if s[0] in ys then [] else [s[0]]) by {
          assert head[1..] == [];
        }
      }
    }
  }

  /** Filtering distributes over concatenation. */
  lemma {:induction false} WithoutAppend<T>(a: seq<T>, b: seq<T>, xs: set<T>)
    ensures Without(a + b, xs) == Without(a, xs) + Without(b, xs)
  {
    if a == [] {
      assert a + b == b;
    } else {
      assert (a + b)[0] == a[0];
      assert (a + b)[1..] == a[1..] + b;
      WithoutAppend(a[1..], b, xs);
    }
  }

  /** push_back-if-absent keeps a vector duplicate-free, adds exactly `x`, and repeating it is a no-op. */
  lemma AppendAbsentFacts<T>(s: seq<T>, x: T)
    requires NoDup(s)
    ensures NoDup(AppendAbsent(s, x))
    ensures forall y :: y in AppendAbsent(s, x) <==> y in s || y == x
    ensures AppendAbsent(AppendAbsent(s, x), x) == AppendAbsent(s, x)
    ensures s <= AppendAbsent(s, x)
  {
    FindAbsent(s, x);
    FindAbsent(AppendAbsent(s, x), x);
  }
}
