/** The order `list_workloads` sorts by: language first, then name, each
    compared as Rust compares strings (lexicographically, character by
    character, a proper prefix first). */
module WorkloadOrder {

  import opened Entities

  /** `a.cmp(&b) != Greater` for strings. */
  predicate StrLe(a: string, b: string)
    decreases |a|
  {
    if a == [] then true
    else if b == [] then false
    else if a[0] != b[0] then a[0] < b[0]
    else StrLe(a[1..], b[1..])
  }

  lemma {:induction false} StrLeTotal(a: string, b: string)
    ensures StrLe(a, b) || StrLe(b, a)
  {
    if a != [] && b != [] && a[0] == b[0] {
      StrLeTotal(a[1..], b[1..]);
    }
  }

  lemma {:induction false} StrLeReflexive(a: string)
    ensures StrLe(a, a)
  {
    if a != [] {
      StrLeReflexive(a[1..]);
    }
  }

  lemma {:induction false} StrLeAntisymmetric(a: string, b: string)
    requires StrLe(a, b) && StrLe(b, a)
    ensures a == b
  {
    if a != [] && b != [] {
      StrLeAntisymmetric(a[1..], b[1..]);
      assert a == [a[0]] + a[1..] && b == [b[0]] + b[1..];
    }
  }

  lemma {:induction false} StrLeTransitive(a: string, b: string, c: string)
    requires StrLe(a, b) && StrLe(b, c)
    ensures StrLe(a, c)
  {
    if a != [] && b != [] && c != [] && a[0] == b[0] && b[0] == c[0] {
      StrLeTransitive(a[1..], b[1..], c[1..]);
    }
  }

  /** The comparator given to `sort_by`, as "not greater". */
  predicate Le(x: Workload, y: Workload) {
    StrLe(x.language, y.language) && (x.language == y.language ==> StrLe(x.name, y.name))
  }

  lemma LeReflexive(x: Workload)
    ensures Le(x, x)
  {
    StrLeReflexive(x.language);
    StrLeReflexive(x.name);
  }

  lemma LeTotal(x: Workload, y: Workload)
    ensures Le(x, y) || Le(y, x)
  {
    StrLeTotal(x.language, y.language);
    StrLeTotal(x.name, y.name);
  }

  lemma LeAntisymmetric(x: Workload, y: Workload)
    requires Le(x, y) && Le(y, x)
    ensures x == y
  {
    StrLeAntisymmetric(x.language, y.language);
    StrLeAntisymmetric(x.name, y.name);
  }

  lemma LeTransitive(x: Workload, y: Workload, z: Workload)
    requires Le(x, y) && Le(y, z)
    ensures Le(x, z)
  {
    StrLeTransitive(x.language, y.language, z.language);
    if x.language == z.language {
      StrLeAntisymmetric(x.language, y.language);
      StrLeTransitive(x.name, y.name, z.name);
    }
  }

  predicate Sorted(s: seq<Workload>) {
    forall i, j :: 0 <= i < j < |s| ==> Le(s[i], s[j])
  }

  /** Reference definition of the sorted list: insertion into a sorted list. */
  function Insert(w: Workload, s: seq<Workload>): seq<Workload> {
    if s == [] then [w]
    else if Le(w, s[0]) then [w] + s
    else [s[0]] + Insert(w, s[1..])
  }

  function Sort(s: seq<Workload>): seq<Workload> {
    if s == [] then [] else Insert(s[0], Sort(s[1..]))
  }

  lemma {:induction false} InsertSpec(w: Workload, s: seq<Workload>)
    requires Sorted(s)
    ensures multiset(Insert(w, s)) == multiset(s) + multiset{w}
    ensures Sorted(Insert(w, s))
  {
    if s == [] {
    } else if Le(w, s[0]) {
      var r := [w] + s;
      forall i, j | 0 <= i < j < |r| ensures Le(r[i], r[j]) {
        if i == 0 && j > 1 {
          LeTransitive(w, s[0], s[j - 1]);
        }
      }
    } else {
      LeTotal(w, s[0]);
      var tail := s[1..];
      assert Sorted(tail);
      InsertSpec(w, tail);
      assert s == [s[0]] + tail;
      var r := [s[0]] + Insert(w, tail);
      forall i, j | 0 <= i < j < |r| ensures Le(r[i], r[j]) {
        if i == 0 {
          var x := r[j];
          assert x in multiset(Insert(w, tail));
          if x != w {
            assert x in multiset(tail);
            var k :| 0 <= k < |tail| && tail[k] == x;
            assert s[k + 1] == x;
          }
        }
      }
    }
  }

  /** The reference sort yields a sorted permutation of its input. */
  lemma {:induction false} SortSpec(s: seq<Workload>)
    ensures multiset(Sort(s)) == multiset(s)
    ensures Sorted(Sort(s))
  {
    if s != [] {
      SortSpec(s[1..]);
      InsertSpec(s[0], Sort(s[1..]));
      assert s == [s[0]] + s[1..];
    }
  }

  lemma SortedHeadIsLeast(s: seq<Workload>, x: Workload)
    requires Sorted(s) && x in s
    ensures Le(s[0], x)
  {
    var k :| 0 <= k < |s| && s[k] == x;
    if k == 0 {
      LeReflexive(x);
    }
  }

  lemma SortedTail(s: seq<Workload>)
    requires Sorted(s) && s != []
    ensures Sorted(s[1..])
  {
    var t := s[1..];
    forall i, j | 0 <= i < j < |t| ensures Le(t[i], t[j]) {
      assert t[i] == s[i + 1] && t[j] == s[j + 1];
    }
  }

  lemma MultisetTail(s: seq<Workload>)
    requires s != []
    ensures multiset(s[1..]) == multiset(s) - multiset{s[0]}
  {
    assert s == [s[0]] + s[1..];
  }

  /** Under this order a sorted permutation is unique: any sort returns the
      same list, whichever algorithm it uses. */
  lemma {:induction false} SortedUnique(a: seq<Workload>, b: seq<Workload>)
    requires Sorted(a) && Sorted(b) && multiset(a) == multiset(b)
    ensures a == b
  {
    if a != [] {
      assert a[0] in multiset(a);
      assert b != [] && b[0] in multiset(b);
      SortedHeadIsLeast(a, b[0]);
      SortedHeadIsLeast(b, a[0]);
      LeAntisymmetric(a[0], b[0]);
      MultisetTail(a);
      MultisetTail(b);
      SortedTail(a);
      SortedTail(b);
      SortedUnique(a[1..], b[1..]);
      assert a == [a[0]] + a[1..] && b == [b[0]] + b[1..];
    }
  }

  /** `s[..n]` is sorted. */
  predicate SortedPrefix(s: seq<Workload>, n: nat)
    requires n <= |s|
  {
    forall k, l :: 0 <= k < l < n ==> Le(s[k], s[l])
  }

  /** While the element at `j` moves left: `s[..i+1]` is sorted apart from
      position `j`, and that element is not greater than anything right of it. */
  predicate Inserting(s: seq<Workload>, i: nat, j: nat)
    requires j <= i < |s|
  {
    (forall k, l :: 0 <= k < l <= i && k != j && l != j ==> Le(s[k], s[l])) &&
    (forall l :: j < l <= i ==> Le(s[j], s[l]))
  }

  lemma StartInserting(s: seq<Workload>, i: nat)
    requires i < |s| && SortedPrefix(s, i)
    ensures Inserting(s, i, i)
  {
  }

  lemma StepInserting(s: seq<Workload>, i: nat, j: nat)
    requires 0 < j <= i < |s| && Inserting(s, i, j) && !Le(s[j - 1], s[j])
    ensures Inserting(s[j - 1 := s[j]][j := s[j - 1]], i, j - 1)
  {
    LeTotal(s[j - 1], s[j]);
    var t := s[j - 1 := s[j]][j := s[j - 1]];
    forall k, l | 0 <= k < l <= i && k != j - 1 && l != j - 1 ensures Le(t[k], t[l]) {
      if l == j {
        assert t[l] == s[j - 1] && t[k] == s[k];
      } else if k == j {
        assert t[k] == s[j - 1] && t[l] == s[l];
      }
    }
    forall l | j - 1 < l <= i ensures Le(t[j - 1], t[l]) {
    }
  }

  lemma EndInserting(s: seq<Workload>, i: nat, j: nat)
    requires j <= i < |s| && Inserting(s, i, j) && (j == 0 || Le(s[j - 1], s[j]))
    ensures SortedPrefix(s, i + 1)
  {
    forall k, l | 0 <= k < l <= i ensures Le(s[k], s[l]) {
      if l == j && k < j - 1 {
        LeTransitive(s[k], s[j - 1], s[j]);
      }
    }
  }

  /** `sort_by` on the vector of selected workloads, sorting it in place. */
  method SortInPlace(a: array<Workload>)
    modifies a
    ensures a[..] == Sort(old(a[..]))
  {
    var i := 0;
    while i < a.Length
      invariant 0 <= i <= a.Length
      invariant SortedPrefix(a[..], i)
      invariant multiset(a[..]) == old(multiset(a[..]))
    {
      StartInserting(a[..], i);
      var j := i;
      while j > 0 && !Le(a[j - 1], a[j])
        invariant 0 <= j <= i
        invariant Inserting(a[..], i, j)
        invariant multiset(a[..]) == old(multiset(a[..]))
      {
        StepInserting(a[..], i, j);
        a[j - 1], a[j] := a[j], a[j - 1];
        j := j - 1;
      }
      EndInserting(a[..], i, j);
      i := i + 1;
    }
    assert a[..] == a[..][..a.Length];
    SortSpec(old(a[..]));
    SortedUnique(a[..], Sort(old(a[..])));
  }
}
