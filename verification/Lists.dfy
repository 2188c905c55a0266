/** Lists of records with an id: deletion by id, and being a subsequence. */
module Lists {
  import opened Ids

  /** The list without the first record that has the id. */
  function RemoveFirst<T>(list: seq<T>, id: Id, key: T -> Id): (r: seq<T>)
    ensures |r| <= |list|
  {
    if list == [] then []
    else if key(list[0]) == id then list[1..]
    else [list[0]] + RemoveFirst(list[1..], id, key)
  }

  /** The list after deleting the records of `gone` one by one. */
  function RemoveEach<T>(list: seq<T>, gone: seq<T>, key: T -> Id): seq<T> {
    if gone == [] then list
    else RemoveFirst(RemoveEach(list, gone[..|gone| - 1], key), key(gone[|gone| - 1]), key)
  }

  ghost predicate DistinctKeys<T(!new)>(list: seq<T>, key: T -> Id) {
    forall i, j :: 0 <= i < j < |list| ==> key(list[i]) != key(list[j])
  }

  ghost predicate Has<T(!new)>(list: seq<T>, id: Id, key: T -> Id) {
    exists i :: 0 <= i < |list| && key(list[i]) == id
  }

  /** The records whose id is none of those in `gone`. */
  ghost function Keep<T(!new)>(list: seq<T>, gone: seq<T>, key: T -> Id): seq<T> {
    if list == [] then []
    else if Has(gone, key(list[0]), key) then Keep(list[1..], gone, key)
    else [list[0]] + Keep(list[1..], gone, key)
  }

  /** a can be obtained from b by leaving records out. */
  predicate Subsequence<T(==)>(a: seq<T>, b: seq<T>) {
    a == [] || (b != [] && if a[0] == b[0] then Subsequence(a[1..], b[1..]) else Subsequence(a, b[1..]))
  }

  // ---- Subsequences ----

  lemma {:induction false} SubsequenceTail<T>(a: seq<T>, b: seq<T>)
    requires a != [] && Subsequence(a, b)
    ensures Subsequence(a[1..], b)
    decreases |b|, 0
  {
    if a[0] == b[0] {
      SubsequenceCons(a[1..], b[1..], b[0]);
      assert [b[0]] + b[1..] == b;
    } else {
      SubsequenceTail(a, b[1..]);
      SubsequenceCons(a[1..], b[1..], b[0]);
      assert [b[0]] + b[1..] == b;
    }
  }

  lemma {:induction false} SubsequenceCons<T>(a: seq<T>, b: seq<T>, x: T)
    requires Subsequence(a, b)
    ensures Subsequence(a, [x] + b)
    decreases |b|, 1
  {
    assert ([x] + b)[1..] == b;
    if a != [] && a[0] == x {
      SubsequenceTail(a, b);
    }
  }

  lemma {:induction false} SubsequenceHas<T(!new)>(a: seq<T>, b: seq<T>, id: Id, key: T -> Id)
    requires Subsequence(a, b) && Has(a, id, key)
    ensures Has(b, id, key)
    decreases |b|
  {
    var i :| 0 <= i < |a| && key(a[i]) == id;
    if a[0] != b[0] || i > 0 {
      var a' := if a[0] == b[0] then a[1..] else a;
      assert key(a'[if a[0] == b[0] then i - 1 else i]) == id;
      SubsequenceHas(a', b[1..], id, key);
      var j :| 0 <= j < |b[1..]| && key(b[1..][j]) == id;
      assert key(b[j + 1]) == id;
    } else {
      assert key(b[0]) == id;
    }
  }

  lemma {:induction false} SubsequenceDistinct<T(!new)>(a: seq<T>, b: seq<T>, key: T -> Id)
    requires Subsequence(a, b) && DistinctKeys(b, key)
    ensures DistinctKeys(a, key)
    decreases |b|
  {
    if a != [] {
      if a[0] == b[0] {
        SubsequenceDistinct(a[1..], b[1..], key);
        forall j | 0 < j < |a| ensures key(a[j]) != key(a[0]) {
          assert key(a[1..][j - 1]) == key(a[j]);
          SubsequenceHas(a[1..], b[1..], key(a[j]), key);
          var i :| 0 <= i < |b[1..]| && key(b[1..][i]) == key(a[j]);
          assert b[i + 1] == b[1..][i];
        }
        assert forall i, j :: 0 < i < j < |a| ==> a[i] == a[1..][i - 1] && a[j] == a[1..][j - 1];
      } else {
        SubsequenceDistinct(a, b[1..], key);
      }
    }
  }

  lemma {:induction false} SubsequenceSelf<T>(a: seq<T>)
    ensures Subsequence(a, a)
  {
    if a != [] {
      SubsequenceSelf(a[1..]);
    }
  }

  lemma {:induction false} SubsequenceAppend<T>(a: seq<T>, b: seq<T>, x: seq<T>)
    requires Subsequence(a, b)
    ensures Subsequence(a + x, b + x)
    decreases |b|
  {
    if b == [] {
      SubsequenceSelf(x);
      assert a + x == x && b + x == x;
    } else {
      assert (b + x)[1..] == b[1..] + x;
      if a == [] {
        SubsequenceAppend(a, b[1..], x);
        SubsequenceCons(a + x, b[1..] + x, b[0]);
        assert [b[0]] + (b[1..] + x) == b + x;
      } else if a[0] == b[0] {
        SubsequenceAppend(a[1..], b[1..], x);
        assert (a + x)[1..] == a[1..] + x;
      } else {
        SubsequenceAppend(a, b[1..], x);
      }
    }
  }

  lemma {:induction false} SubsequenceRemove<T>(a: seq<T>, b: seq<T>, id: Id, key: T -> Id)
    requires Subsequence(a, b)
    ensures Subsequence(RemoveFirst(a, id, key), b)
    decreases |b|
  {
    if a != [] {
      if key(a[0]) == id {
        SubsequenceTail(a, b);
      } else if a[0] == b[0] {
        SubsequenceRemove(a[1..], b[1..], id, key);
        var r := RemoveFirst(a[1..], id, key);
        assert ([a[0]] + r)[1..] == r;
      } else {
        SubsequenceRemove(a, b[1..], id, key);
        SubsequenceCons(RemoveFirst(a, id, key), b[1..], b[0]);
        assert [b[0]] + b[1..] == b;
      }
    }
  }

  lemma {:induction false} SubsequenceKeep<T(!new)>(a: seq<T>, b: seq<T>, gone: seq<T>, key: T -> Id)
    requires Subsequence(a, b)
    ensures Subsequence(Keep(a, gone, key), Keep(b, gone, key))
    decreases |b|
  {
    if a != [] {
      var b' := Keep(b[1..], gone, key);
      if a[0] == b[0] {
        SubsequenceKeep(a[1..], b[1..], gone, key);
        var a' := Keep(a[1..], gone, key);
        assert ([a[0]] + a')[1..] == a' && ([b[0]] + b')[1..] == b';
      } else {
        SubsequenceKeep(a, b[1..], gone, key);
        SubsequenceCons(Keep(a, gone, key), b', b[0]);
      }
    }
  }

  // ---- Deletion ----

  lemma {:induction false} RemoveFirstAt<T(!new)>(list: seq<T>, id: Id, key: T -> Id, k: nat)
    requires k <= |list| && forall i :: 0 <= i < k ==> key(list[i]) != id
    ensures k < |list| && key(list[k]) == id ==> RemoveFirst(list, id, key) == list[..k] + list[k + 1..]
    ensures k == |list| ==> RemoveFirst(list, id, key) == list
  {
    if k > 0 {
      assert list[1..][..k - 1] == list[1..k];
      assert forall i :: 0 <= i < k - 1 ==> list[1..][i] == list[i + 1];
      RemoveFirstAt(list[1..], id, key, k - 1);
      assert list[..k] == [list[0]] + list[1..k];
    }
  }

  lemma {:induction false} KeepConcat<T(!new)>(a: seq<T>, b: seq<T>, gone: seq<T>, key: T -> Id)
    ensures Keep(a + b, gone, key) == Keep(a, gone, key) + Keep(b, gone, key)
  {
    if a == [] {
      assert a + b == b;
    } else {
      assert (a + b)[1..] == a[1..] + b;
      KeepConcat(a[1..], b, gone, key);
    }
  }

  lemma {:induction false} KeepOthers<T(!new)>(a: seq<T>, gone: seq<T>, key: T -> Id)
    requires forall i :: 0 <= i < |a| ==> !Has(gone, key(a[i]), key)
    ensures Keep(a, gone, key) == a
  {
    if a != [] {
      KeepOthers(a[1..], gone, key);
    }
  }

  lemma {:induction false} KeepNothing<T(!new)>(a: seq<T>, gone: seq<T>, key: T -> Id)
    requires forall i :: 0 <= i < |a| ==> Has(gone, key(a[i]), key)
    ensures Keep(a, gone, key) == []
  {
    if a != [] {
      KeepNothing(a[1..], gone, key);
    }
  }

  /** With distinct ids, deleting record after record is the same as keeping the others. */
  lemma {:induction false} RemoveEachKeeps<T(!new)>(list: seq<T>, gone: seq<T>, key: T -> Id)
    requires DistinctKeys(list, key)
    ensures RemoveEach(list, gone, key) == Keep(list, gone, key)
    decreases |gone|
  {
    if gone == [] {
      KeepOthers(list, gone, key);
    } else {
      var front, x := gone[..|gone| - 1], gone[|gone| - 1];
      RemoveEachKeeps(list, front, key);
      RemoveFromKept(list, front, x, key);
      assert front + [x] == gone;
    }
  }

  lemma {:induction false} RemoveFromKept<T(!new)>(list: seq<T>, front: seq<T>, x: T, key: T -> Id)
    requires DistinctKeys(list, key)
    ensures RemoveFirst(Keep(list, front, key), key(x), key) == Keep(list, front + [x], key)
  {
    if list != [] {
      RemoveFromKept(list[1..], front, x, key);
      HasSnoc(front, x, key(list[0]), key);
      var rest := Keep(list[1..], front, key);
      assert ([list[0]] + rest)[1..] == rest;
      if key(list[0]) == key(x) {
        assert forall i :: 0 <= i < |list[1..]| ==> list[1..][i] == list[i + 1];
        SameKeep(list[1..], front, x, key);
      }
    }
  }

  lemma {:induction false} SameKeep<T(!new)>(list: seq<T>, front: seq<T>, x: T, key: T -> Id)
    requires forall i :: 0 <= i < |list| ==> key(list[i]) != key(x)
    ensures Keep(list, front + [x], key) == Keep(list, front, key)
  {
    if list != [] {
      SameKeep(list[1..], front, x, key);
      HasSnoc(front, x, key(list[0]), key);
    }
  }

  lemma HasSnoc<T(!new)>(a: seq<T>, x: T, id: Id, key: T -> Id)
    ensures Has(a + [x], id, key) <==> Has(a, id, key) || key(x) == id
  {
    assert (a + [x])[|a|] == x;
    if Has(a, id, key) {
      var i :| 0 <= i < |a| && key(a[i]) == id;
      assert key((a + [x])[i]) == id;
    }
  }

  lemma {:induction false} RemoveEachIsPart<T(!new)>(list: seq<T>, gone: seq<T>, key: T -> Id)
    ensures Subsequence(RemoveEach(list, gone, key), list)
    decreases |gone|
  {
    if gone == [] {
      SubsequenceSelf(list);
    } else {
      RemoveEachIsPart(list, gone[..|gone| - 1], key);
      SubsequenceRemove(RemoveEach(list, gone[..|gone| - 1], key), list, key(gone[|gone| - 1]), key);
    }
  }

  lemma NotBoth<T(!new)>(a: seq<T>, b: seq<T>, id: Id, key: T -> Id)
    requires DistinctKeys(a + b, key) && Has(a, id, key)
    ensures !Has(b, id, key)
  {
    var i :| 0 <= i < |a| && key(a[i]) == id;
    assert (a + b)[i] == a[i];
    assert forall j :: 0 <= j < |b| ==> (a + b)[|a| + j] == b[j];
  }

  lemma HasConcat<T(!new)>(a: seq<T>, b: seq<T>, id: Id, key: T -> Id)
    ensures Has(a + b, id, key) <==> Has(a, id, key) || Has(b, id, key)
  {
    if Has(a, id, key) {
      var i :| 0 <= i < |a| && key(a[i]) == id;
      assert key((a + b)[i]) == id;
    }
    if Has(b, id, key) {
      var i :| 0 <= i < |b| && key(b[i]) == id;
      assert key((a + b)[|a| + i]) == id;
    }
  }
}
