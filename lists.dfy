/** Small facts about sequences used by both extractors' list bookkeeping. */
module Lists {
  /** List.remove(int): the element at i is dropped and the later ones shift down. */
  function RemoveAt<T>(s: seq<T>, i: int): (r: seq<T>)
    requires 0 <= i < |s|
    ensures |r| == |s| - 1
    ensures forall k :: 0 <= k < i ==> r[k] == s[k]
    ensures forall k :: i <= k < |r| ==> r[k] == s[k + 1]
  {
    s[..i] + s[i + 1..]
  }

  /** A prefix one longer is the shorter prefix and the next element. */
  lemma PrefixStep<T>(s: seq<T>, i: int)
    requires 0 <= i < |s|
    ensures s[..i + 1] == s[..i] + [s[i]]
  {
  }

  /** Appending is associative. */
  lemma AppendAssoc<T>(a: seq<T>, b: seq<T>, c: seq<T>)
    ensures (a + b) + c == a + (b + c)
  {
  }

  /** A sequence is its part before i, its element at i and its part after i. */
  lemma SplitAt<T>(s: seq<T>, i: int)
    requires 0 <= i < |s|
    ensures s == (s[..i] + [s[i]]) + s[i + 1..]
  {
  }

  /** A non-empty sequence is its first element and the rest. */
  lemma HeadTail<T>(s: seq<T>)
    requires s != []
    ensures s == [s[0]] + s[1..]
  {
  }

  /** f applied to every element, built from the last element back, as loops that append one result at a time build it. */
  function EachMapped<A, B>(f: A -> B, xs: seq<A>): (r: seq<B>)
    ensures |r| == |xs|
  {
    if xs == [] then [] else EachMapped(f, xs[..|xs| - 1]) + [f(xs[|xs| - 1])]
  }

  lemma {:induction false} EachMappedAt<A, B>(f: A -> B, xs: seq<A>)
    ensures forall i :: 0 <= i < |xs| ==> EachMapped(f, xs)[i] == f(xs[i])
    decreases |xs|
  {
    if xs != [] {
      var n := |xs| - 1;
      EachMappedAt(f, xs[..n]);
      forall i | 0 <= i < n ensures xs[..n][i] == xs[i] {
      }
    }
  }

  /** A non-empty set of ids has an element to pick. */
  lemma NonEmpty(s: set<int>)
    requires s != {}
    ensures exists x :: x in s
  {
    if forall x :: x !in s {
      assert false;
    }
  }

  /** No object appears twice. */
  predicate Distinct<T(==)>(s: seq<T>) {
    forall a, b :: 0 <= a < b < |s| ==> s[a] != s[b]
  }

  lemma DistinctRemoveAt<T>(s: seq<T>, i: int)
    requires Distinct(s) && 0 <= i < |s|
    ensures Distinct(RemoveAt(s, i))
  {
    var r := RemoveAt(s, i);
    forall a, b | 0 <= a < b < |r| ensures r[a] != r[b] {
      var a', b' := if a < i then a else a + 1, if b < i then b else b + 1;
      assert r[a] == s[a'] && r[b] == s[b'] && a' < b';
    }
  }

  /** The elements in the order of their first occurrence, each once. */
  function Dedup<T(==)>(s: seq<T>): seq<T>
  {
    if s == [] then []
    else
      var d := Dedup(s[..|s| - 1]);
      if s[|s| - 1] in d then d else d + [s[|s| - 1]]
  }

  /** Dedup keeps exactly the elements of the list, each once. */
  lemma {:induction false} DedupMeaning<T>(s: seq<T>)
    ensures forall x :: x in Dedup(s) <==> x in s
    ensures Distinct(Dedup(s))
    decreases |s|
  {
    if s != [] {
      var n := |s|;
      DedupMeaning(s[..n - 1]);
      assert s == s[..n - 1] + [s[n - 1]];
    }
  }

  /** A list has at least as many entries as distinct elements, exactly as many when no element repeats. */
  lemma {:induction false} ElementCount<T>(s: seq<T>)
    ensures |set x | x in s| <= |s|
    ensures |set x | x in s| == |s| <==> Distinct(s)
    decreases |s|
  {
    if s != [] {
      var n := |s|;
      var front := s[..n - 1];
      ElementCount(front);
      var e := set x | x in front;
      assert (set x | x in s) == e + {s[n - 1]} by {
        assert s == front + [s[n - 1]];
      }
      if s[n - 1] in e {
        assert !Distinct(s) by {
          var i :| 0 <= i < n - 1 && front[i] == s[n - 1];
          assert s[i] == s[n - 1];
        }
      } else {
        assert Distinct(s) <==> Distinct(front) by {
          if Distinct(front) {
            forall a, b | 0 <= a < b < n ensures s[a] != s[b] {
              if b < n - 1 {
                assert front[a] != front[b];
              } else {
                assert s[a] in e;
              }
            }
          }
        }
      }
    }
  }

  // ----- the order of a HashMap's integer keys, taken as ascending -----

  /** The smallest element of a non-empty set. */
  ghost function Least(s: set<int>): (x: int)
    requires s != {}
    ensures x in s && forall c :: c in s ==> x <= c
  {
    NonEmpty(s);
    var y :| y in s;
    if forall c :: c in s ==> c == y then y
    else
      var c :| c in s && c != y;
      var rest := s - {y};
      assert c in rest;
      var m := Least(rest);
      assert forall c :: c in s ==> c == y || c in rest;
      if y < m then y else m
  }

  /** The keys of a set, smallest first. */
  ghost function SortedKeys(s: set<int>): seq<int>
    decreases |s|
  {
    if s == {} then [] else [Least(s)] + SortedKeys(s - {Least(s)})
  }

  /** The sorted keys are exactly the set's elements, each once, in ascending order. */
  lemma {:induction false} SortedKeysMeaning(s: set<int>)
    ensures forall x :: x in SortedKeys(s) <==> x in s
    ensures forall i, j :: 0 <= i < j < |SortedKeys(s)| ==> SortedKeys(s)[i] < SortedKeys(s)[j]
    decreases |s|
  {
    if s != {} {
      var x := Least(s);
      var rest := SortedKeys(s - {x});
      SortedKeysMeaning(s - {x});
      assert SortedKeys(s) == [x] + rest;
      forall i, j | 0 <= i < j < |SortedKeys(s)| ensures SortedKeys(s)[i] < SortedKeys(s)[j] {
        if i == 0 {
          assert SortedKeys(s)[j] == rest[j - 1] && rest[j - 1] in s - {x};
        } else {
          assert SortedKeys(s)[i] == rest[i - 1] && SortedKeys(s)[j] == rest[j - 1];
        }
      }
    }
  }

  /** One key per element of the set. */
  lemma {:induction false} SortedKeysLength(s: set<int>)
    ensures |SortedKeys(s)| == |s|
    decreases |s|
  {
    if s != {} {
      SortedKeysLength(s - {Least(s)});
    }
  }

  lemma SortedKeysFirst(s: set<int>, x: int)
    requires x in s && forall c :: c in s ==> x <= c
    ensures SortedKeys(s) == [x] + SortedKeys(s - {x})
  {
    assert Least(s) <= x && x <= Least(s);
  }

  /** Takes the smallest key left: the next key of an ascending iteration. */
  method Smallest(s: set<int>) returns (x: int)
    requires s != {}
    ensures x == Least(s)
  {
    ghost var least := Least(s);
    x :| x in s && forall c :: c in s ==> x <= c;
  }

  lemma KeysStep(keys: seq<int>, done: seq<int>, remaining: set<int>, b: int)
    requires remaining != {} && b == Least(remaining)
    requires keys == done + SortedKeys(remaining)
    ensures keys == (done + [b]) + SortedKeys(remaining - {b})
  {
    SortedKeysFirst(remaining, b);
    var rest := SortedKeys(remaining - {b});
    assert keys == done + ([b] + rest);
  }

  /** The keys of a set in ascending order, the smallest left taken each time. */
  method AscendingKeys(s: set<int>) returns (keys: seq<int>)
    ensures keys == SortedKeys(s)
  {
    ghost var all := SortedKeys(s);
    keys := [];
    var remaining := s;
    while remaining != {}
      invariant all == keys + SortedKeys(remaining)
      decreases |remaining|
    {
      var k := Smallest(remaining);
      KeysStep(all, keys, remaining, k);
      keys := keys + [k];
      remaining := remaining - {k};
    }
  }

  /** In ascending keys, a smaller key comes at a smaller position. */
  lemma SortedKeysIndexOrder(s: set<int>, i: int, j: int)
    requires 0 <= i < |SortedKeys(s)| && 0 <= j < |SortedKeys(s)|
    ensures SortedKeys(s)[i] < SortedKeys(s)[j] <==> i < j
  {
    SortedKeysMeaning(s);
  }

  lemma SortedKeysIn(s: set<int>)
    ensures forall i :: 0 <= i < |SortedKeys(s)| ==> SortedKeys(s)[i] in s
  {
    SortedKeysMeaning(s);
    forall i | 0 <= i < |SortedKeys(s)| ensures SortedKeys(s)[i] in s {
      assert SortedKeys(s)[i] in SortedKeys(s);
    }
  }

}
