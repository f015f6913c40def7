/**
 * The iteration order of a java.util.HashSet<Point> that never grows past its
 * default table of 16 buckets (at most 12 elements): elements are listed by
 * bucket index, and inside one bucket in insertion order. The bucket of a
 * point is (h ^ (h >>> 16)) & 15 with h its hashCode.
 */
module JavaHashSet {
  import opened Points

  /** The bucket HashMap.hash and the index mask give a point in a 16-bucket table. */
  function Bucket(p: Point): (r: nat)
    ensures r < 16
  {
    var h := HashCode(p);
    ((h ^ (h >> 16)) & 15) as nat
  }

  ghost predicate NoDuplicates(s: seq<Point>)
  {
    forall i, j | 0 <= i < j < |s| :: s[i] != s[j]
  }

  ghost predicate BucketOrdered(s: seq<Point>)
  {
    forall i, j | 0 <= i < j < |s| :: Bucket(s[i]) <= Bucket(s[j])
  }

  /** Links a new element at the tail of its bucket. */
  function InsertInBucket(s: seq<Point>, q: Point): (r: seq<Point>)
    ensures |r| == |s| + 1
    ensures forall e :: e in r <==> e in s || e == q
  {
    if s == [] then [q]
    else if Bucket(q) < Bucket(s[0]) then [q] + s
    else [s[0]] + InsertInBucket(s[1..], q)
  }

  /** In a bucket-ordered listing no element sits in a lower bucket than the first. */
  lemma OrderedHead(s: seq<Point>)
    requires BucketOrdered(s) && s != []
    ensures forall e | e in s :: Bucket(s[0]) <= Bucket(e)
  {
  }

  /** An element no later in bucket order than any element of an ordered listing can go in front. */
  lemma ConsOrdered(x: Point, t: seq<Point>)
    requires BucketOrdered(t)
    requires forall e | e in t :: Bucket(x) <= Bucket(e)
    ensures BucketOrdered([x] + t)
  {
  }

  lemma {:induction false} InsertKeepsOrder(s: seq<Point>, q: Point)
    requires BucketOrdered(s)
    ensures BucketOrdered(InsertInBucket(s, q))
  {
    if s != [] {
      OrderedHead(s);
      if Bucket(q) < Bucket(s[0]) {
        ConsOrdered(q, s);
      } else {
        assert s == [s[0]] + s[1..];
        assert BucketOrdered(s[1..]) by {
          forall i, j | 0 <= i < j < |s[1..]|
            ensures Bucket(s[1..][i]) <= Bucket(s[1..][j])
          {
            assert s[1..][i] == s[i + 1] && s[1..][j] == s[j + 1];
          }
        }
        InsertKeepsOrder(s[1..], q);
        ConsOrdered(s[0], InsertInBucket(s[1..], q));
      }
    }
  }

  lemma {:induction false} InsertKeepsDistinct(s: seq<Point>, q: Point)
    requires NoDuplicates(s) && q !in s
    ensures NoDuplicates(InsertInBucket(s, q))
  {
    if s != [] && Bucket(q) >= Bucket(s[0]) {
      InsertKeepsDistinct(s[1..], q);
      var t := InsertInBucket(s[1..], q);
      assert s[0] !in t;
      assert InsertInBucket(s, q) == [s[0]] + t;
    }
  }

  /** HashSet.add: no change when an equal element is present. */
  function Add(s: seq<Point>, q: Point): (r: seq<Point>)
    ensures forall e :: e in r <==> e in s || e == q
    ensures q in s ==> r == s
    ensures q !in s ==> |r| == |s| + 1
  {
    if q in s then s else InsertInBucket(s, q)
  }

  /** The iteration order of a fresh set after adding qs in order. */
  function AddAll(qs: seq<Point>): (r: seq<Point>)
    ensures forall e :: e in r <==> e in qs
    ensures |r| <= |qs|
  {
    if qs == [] then [] else Add(AddAll(qs[..|qs| - 1]), qs[|qs| - 1])
  }

  /** Adding the elements of a prefix one more element at a time. */
  lemma AddAllStep(qs: seq<Point>, i: int)
    requires 0 <= i < |qs|
    ensures AddAll(qs[..i + 1]) == Add(AddAll(qs[..i]), qs[i])
  {
    assert qs[..i + 1][..i] == qs[..i];
  }

  /** The listing holds no element twice. */
  lemma {:induction false} AddAllDistinct(qs: seq<Point>)
    ensures NoDuplicates(AddAll(qs))
  {
    if qs != [] {
      var s := AddAll(qs[..|qs| - 1]);
      AddAllDistinct(qs[..|qs| - 1]);
      if qs[|qs| - 1] !in s {
        InsertKeepsDistinct(s, qs[|qs| - 1]);
      }
    }
  }

  /** The listing runs through the buckets in increasing order. */
  lemma {:induction false} AddAllBucketOrdered(qs: seq<Point>)
    ensures BucketOrdered(AddAll(qs))
  {
    if qs != [] {
      var s := AddAll(qs[..|qs| - 1]);
      AddAllBucketOrdered(qs[..|qs| - 1]);
      if qs[|qs| - 1] !in s {
        InsertKeepsOrder(s, qs[|qs| - 1]);
      }
    }
  }
}
