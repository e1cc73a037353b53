/** Ordered id lists, as the caches keep them (`currentPagePosts`, `commentsByPost[postId]`),
    and the array operations the reducers apply to them. */
module IdLists {

  /** Entity ids are the server's `_id` strings. */
  type Id = string

  predicate NoDup<T(==)>(s: seq<T>) {
    forall i, j :: 0 <= i < j < |s| ==> s[i] != s[j]
  }

  /** `s` is obtained from `t` by deleting elements, so it keeps their relative order. */
  predicate IsSubseq<T(==)>(s: seq<T>, t: seq<T>)
    decreases |t|
  {
    if s == [] then true
    else if t == [] then false
    else if s[0] == t[0] then IsSubseq(s[1..], t[1..])
    else IsSubseq(s, t[1..])
  }

  lemma {:induction false} SubseqDropHead<T>(s: seq<T>, t: seq<T>)
    requires s != [] && IsSubseq(s, t)
    ensures IsSubseq(s[1..], t)
    decreases |t|
  {
    if s[0] == t[0] {
      if s[1..] != [] {
        SubseqDropHead(s[1..], t[1..]);
        SubseqExtend(s[1..], t);
      }
    } else {
      SubseqDropHead(s, t[1..]);
      SubseqExtend(s[1..], t);
    }
  }

  /** A subsequence of the tail of `t` is a subsequence of `t`. */
  lemma {:induction false} SubseqExtend<T>(s: seq<T>, t: seq<T>)
    requires t != [] && IsSubseq(s, t[1..])
    ensures IsSubseq(s, t)
    decreases |t|, 1
  {
    if s != [] && s[0] == t[0] {
      SubseqDropHead(s, t[1..]);
    }
  }

  /** `Array.prototype.pop`: drops the last element; popping an empty list does nothing. */
  function Pop<T>(s: seq<T>): (r: seq<T>)
    ensures s != [] ==> |r| == |s| - 1
    ensures s == [] ==> r == []
    ensures r == s[..|r|]
  {
    if s == [] then [] else s[..|s| - 1]
  }

  /** The `forEach` of `getPostSuccess` on the list: each fetched id, in received order,
      is pushed unless the list already `includes` it. */
  function AppendAbsent(list: seq<Id>, ids: seq<Id>): seq<Id>
    decreases |ids|
  {
    if ids == [] then list
    else AppendAbsent(if ids[0] in list then list else list + [ids[0]], ids[1..])
  }

  /** Appending keeps the old list as a prefix and adds, in received order and once each, exactly
      the fetched ids that were not listed, so it never adds a duplicate, whatever the old list
      holds. */
  lemma {:induction false} AppendAbsentShape(list: seq<Id>, ids: seq<Id>)
    ensures |list| <= |AppendAbsent(list, ids)|
    ensures AppendAbsent(list, ids)[..|list|] == list
    ensures forall x :: x in AppendAbsent(list, ids) <==> x in list || x in ids
    ensures forall x :: x in AppendAbsent(list, ids)[|list|..] <==> x in ids && x !in list
    ensures NoDup(AppendAbsent(list, ids)[|list|..])
    ensures IsSubseq(AppendAbsent(list, ids)[|list|..], ids)
    ensures NoDup(list) ==> NoDup(AppendAbsent(list, ids))
    decreases |ids|
  {
    var r := AppendAbsent(list, ids);
    if ids == [] {
      assert r[|list|..] == [];
    } else {
      var next := if ids[0] in list then list else list + [ids[0]];
      AppendAbsentShape(next, ids[1..]);
      assert r == AppendAbsent(next, ids[1..]);
      assert forall x :: x in ids <==> x == ids[0] || x in ids[1..] by {
        assert ids == [ids[0]] + ids[1..];
      }
      if ids[0] in list {
        SubseqExtend(r[|list|..], ids);
      } else {
        var added := r[|next|..];
        assert r[|list|..] == [ids[0]] + added;
        assert ([ids[0]] + added)[1..] == added;
        assert ids[0] !in added;
        forall i, j | 0 <= i < j < |[ids[0]] + added| ensures ([ids[0]] + added)[i] != ([ids[0]] + added)[j] {
          if i > 0 {
            assert ([ids[0]] + added)[i] == added[i - 1];
          }
          assert ([ids[0]] + added)[j] == added[j - 1];
        }
      }
    }
  }

  /** Appending a page is appending its first `k` ids and then the rest. */
  lemma {:induction false} AppendAbsentSplit(list: seq<Id>, ids: seq<Id>, k: nat)
    requires k <= |ids|
    ensures AppendAbsent(list, ids) == AppendAbsent(AppendAbsent(list, ids[..k]), ids[k..])
    decreases k
  {
    if k == 0 {
      assert ids[..0] == [] && ids[0..] == ids;
    } else {
      var next := if ids[0] in list then list else list + [ids[0]];
      AppendAbsentSplit(next, ids[1..], k - 1);
      assert ids[..k][0] == ids[0] && ids[..k][1..] == ids[1..][..k - 1];
      assert ids[1..][k - 1..] == ids[k..];
    }
  }

  /** The ids appended for each prefix of the page stay in front of those appended later, so
      the added ids keep the order of their first occurrence in the page. */
  lemma {:induction false} AppendAbsentPrefix(list: seq<Id>, ids: seq<Id>, k: nat)
    requires k <= |ids|
    ensures AppendAbsent(list, ids[..k]) <= AppendAbsent(list, ids)
  {
    AppendAbsentSplit(list, ids, k);
    AppendAbsentShape(AppendAbsent(list, ids[..k]), ids[k..]);
  }

  /** Fetching ids none of which is cached, and none twice, appends them verbatim. */
  lemma {:induction false} AppendAbsentFresh(list: seq<Id>, ids: seq<Id>)
    requires NoDup(ids)
    requires forall x :: x in ids ==> x !in list
    ensures AppendAbsent(list, ids) == list + ids
    decreases |ids|
  {
    if ids != [] {
      assert ids[0] !in list;
      assert forall x :: x in ids[1..] ==> x !in list + [ids[0]] by {
        forall x | x in ids[1..] ensures x !in list + [ids[0]] {
          var k :| 0 <= k < |ids[1..]| && ids[1..][k] == x;
          assert ids[k + 1] == x;
        }
      }
      AppendAbsentFresh(list + [ids[0]], ids[1..]);
      assert list + [ids[0]] + ids[1..] == list + ids;
    }
  }

  /** `list.filter(id => id !== x)`. */
  function Without(s: seq<Id>, x: Id): seq<Id>
    decreases |s|
  {
    if s == [] then []
    else (if s[0] == x then [] else [s[0]]) + Without(s[1..], x)
  }

  /** Filtering removes every occurrence of `x`, keeps every other id and their order. */
  lemma {:induction false} WithoutShape(s: seq<Id>, x: Id)
    ensures x !in Without(s, x)
    ensures forall y :: y in Without(s, x) <==> y in s && y != x
    ensures IsSubseq(Without(s, x), s)
    ensures x !in s ==> Without(s, x) == s
    ensures NoDup(s) ==> NoDup(Without(s, x))
    ensures NoDup(s) && x in s ==> |Without(s, x)| == |s| - 1
    decreases |s|
  {
    if s != [] {
      var rest := Without(s[1..], x);
      WithoutShape(s[1..], x);
      assert s == [s[0]] + s[1..];
      if s[0] == x {
        assert Without(s, x) == rest;
        SubseqExtend(rest, s);
      } else {
        assert ([s[0]] + rest)[1..] == rest;
      }
    }
    if NoDup(s) {
      WithoutNoDup(s, x);
    }
  }

  /** On a duplicate-free list, filtering keeps it duplicate-free and drops one id when `x` is
      listed. */
  lemma {:induction false} WithoutNoDup(s: seq<Id>, x: Id)
    requires NoDup(s)
    ensures forall y :: y in Without(s, x) ==> y in s
    ensures NoDup(Without(s, x))
    ensures x in s ==> |Without(s, x)| == |s| - 1
    ensures x !in s ==> |Without(s, x)| == |s|
    decreases |s|
  {
    if s != [] {
      var rest := Without(s[1..], x);
      assert NoDup(s[1..]) by {
        forall i, j | 0 <= i < j < |s[1..]| ensures s[1..][i] != s[1..][j] {
          assert s[1..][i] == s[i + 1] && s[1..][j] == s[j + 1];
        }
      }
      WithoutNoDup(s[1..], x);
      assert s[0] !in s[1..];
      assert x in s <==> x == s[0] || x in s[1..];
      if s[0] != x {
        assert Without(s, x) == [s[0]] + rest;
        assert s[0] !in rest;
        forall i, j | 0 <= i < j < |[s[0]] + rest| ensures ([s[0]] + rest)[i] != ([s[0]] + rest)[j] {
          if i > 0 {
            assert ([s[0]] + rest)[i] == rest[i - 1];
          }
          assert ([s[0]] + rest)[j] == rest[j - 1];
        }
      }
    }
  }

  /** Filtering keeps every copy of every other id. */
  lemma {:induction false} WithoutKeepsCopies(s: seq<Id>, x: Id)
    ensures forall y :: y != x ==> multiset(Without(s, x))[y] == multiset(s)[y]
    decreases |s|
  {
    if s != [] {
      WithoutKeepsCopies(s[1..], x);
      assert s == [s[0]] + s[1..];
      assert multiset(s) == multiset([s[0]]) + multiset(s[1..]);
    }
  }

  /** Removing an id twice is removing it once. */
  lemma WithoutIdempotent(s: seq<Id>, x: Id)
    ensures Without(Without(s, x), x) == Without(s, x)
  {
    WithoutShape(s, x);
    WithoutShape(Without(s, x), x);
  }

  /** `Array.prototype.reverse`. */
  function Reverse<T>(s: seq<T>): (r: seq<T>)
    ensures |r| == |s|
    ensures forall k :: 0 <= k < |s| ==> r[k] == s[|s| - 1 - k]
  {
    seq(|s|, k requires 0 <= k < |s| => s[|s| - 1 - k])
  }
}
