/**
 * `separatePhotosByMonth`: a `defaultdict(list)` filled by appending each photo
 * to the list under its month key, in input order.
 */
module Buckets {
  import opened Drive
  import Months

  /** Every photo carries a creation time (a missing key would raise). */
  predicate Dated(photos: seq<Record>)
  {
    forall i | 0 <= i < |photos| :: photos[i].createdTime.Some?
  }

  function KeyOf(p: Record): string
    requires p.createdTime.Some?
  {
    Months.MonthKey(p.createdTime.value)
  }

  /** The photos with month key `key`, in input order. */
  function Bucket(photos: seq<Record>, key: string): seq<Record>
    requires Dated(photos)
  {
    if photos == [] then []
    else
      var n := |photos| - 1;
      Bucket(photos[..n], key) + (if KeyOf(photos[n]) == key then [photos[n]] else [])
  }

  /** The keys that occur. */
  function KeysOf(photos: seq<Record>): set<string>
    requires Dated(photos)
  {
    if photos == [] then {}
    else
      var n := |photos| - 1;
      KeysOf(photos[..n]) + {KeyOf(photos[n])}
  }

  /** The dictionary the function returns, as a value. */
  function ByMonth(photos: seq<Record>): map<string, seq<Record>>
    requires Dated(photos)
  {
    map key | key in KeysOf(photos) :: Bucket(photos, key)
  }

  method SeparatePhotosByMonth(allPhotos: seq<Record>) returns (monthlyPhotos: map<string, seq<Record>>)
    requires Dated(allPhotos)
    ensures monthlyPhotos.Keys == KeysOf(allPhotos)
    ensures forall key | key in monthlyPhotos :: monthlyPhotos[key] == Bucket(allPhotos, key)
  {
    monthlyPhotos := map[];
    for i := 0 to |allPhotos|
      invariant monthlyPhotos.Keys == KeysOf(allPhotos[..i])
      invariant forall key | key in monthlyPhotos :: monthlyPhotos[key] == Bucket(allPhotos[..i], key)
    {
      assert allPhotos[..i + 1][..i] == allPhotos[..i];
      var currentPhoto := allPhotos[i];
      var key := KeyOf(currentPhoto);
      var list := if key in monthlyPhotos then monthlyPhotos[key] else [];
      monthlyPhotos := monthlyPhotos[key := list + [currentPhoto]];
      forall k | k in monthlyPhotos
        ensures monthlyPhotos[k] == Bucket(allPhotos[..i + 1], k)
      {
        if k != key && k !in KeysOf(allPhotos[..i]) {
          assert false;
        }
        if k == key && k !in KeysOf(allPhotos[..i]) {
          BucketsOnlyForKeys(allPhotos[..i], k);
        }
      }
    }
    assert allPhotos[..|allPhotos|] == allPhotos;
  }

  /** A key that does not occur has an empty bucket. */
  lemma {:induction false} BucketsOnlyForKeys(photos: seq<Record>, key: string)
    requires Dated(photos) && key !in KeysOf(photos)
    ensures Bucket(photos, key) == []
  {
    if photos != [] {
      BucketsOnlyForKeys(photos[..|photos| - 1], key);
    }
  }

  /** A photo is in a bucket exactly when it is an input photo with that bucket's key. */
  lemma {:induction false} BucketMembers(photos: seq<Record>, key: string, p: Record)
    requires Dated(photos)
    ensures p in Bucket(photos, key) <==> p in photos && KeyOf(p) == key
  {
    if photos != [] {
      var n := |photos| - 1;
      BucketMembers(photos[..n], key, p);
      assert photos == photos[..n] + [photos[n]];
    }
  }

  /** No photo is lost or duplicated: each photo occurs in its own bucket as often as in the input, and in no other. */
  lemma {:induction false} BucketCounts(photos: seq<Record>, key: string, p: Record)
    requires Dated(photos) && p.createdTime.Some?
    ensures multiset(Bucket(photos, key))[p] == if KeyOf(p) == key then multiset(photos)[p] else 0
  {
    if photos != [] {
      var n := |photos| - 1;
      BucketCounts(photos[..n], key, p);
      assert photos == photos[..n] + [photos[n]];
    }
  }

  /** Buckets keep input order: the photos of a prefix come before those of the rest. */
  lemma {:induction false} BucketAppend(a: seq<Record>, b: seq<Record>, key: string)
    requires Dated(a) && Dated(b)
    ensures Dated(a + b) && Bucket(a + b, key) == Bucket(a, key) + Bucket(b, key)
    decreases |b|
  {
    if b != [] {
      var n := |b| - 1;
      assert (a + b)[..|a| + n] == a + b[..n];
      BucketAppend(a, b[..n], key);
    } else {
      assert a + b == a;
    }
  }

  /** The sizes of the buckets of `keys`. */
  function SumSizes(photos: seq<Record>, keys: seq<string>): nat
    requires Dated(photos)
  {
    if keys == [] then 0
    else SumSizes(photos, keys[..|keys| - 1]) + |Bucket(photos, keys[|keys| - 1])|
  }

  predicate Distinct(keys: seq<string>)
  {
    forall i, j | 0 <= i < j < |keys| :: keys[i] != keys[j]
  }

  lemma {:induction false} SumSizesSnoc(photos: seq<Record>, x: Record, keys: seq<string>)
    requires Dated(photos) && x.createdTime.Some? && Dated(photos + [x]) && Distinct(keys)
    ensures SumSizes(photos + [x], keys) == SumSizes(photos, keys) + (if KeyOf(x) in keys then 1 else 0)
  {
    assert (photos + [x])[..|photos|] == photos;
    if keys != [] {
      var n := |keys| - 1;
      SumSizesSnoc(photos, x, keys[..n]);
      assert keys == keys[..n] + [keys[n]];
    }
  }

  /** The bucket sizes sum to the number of photos. */
  lemma {:induction false} BucketSizesSum(photos: seq<Record>, keys: seq<string>)
    requires Dated(photos) && Distinct(keys)
    requires forall k | k in KeysOf(photos) :: k in keys
    ensures SumSizes(photos, keys) == |photos|
  {
    if photos == [] {
      EmptySum(keys);
    } else {
      var n := |photos| - 1;
      assert photos == photos[..n] + [photos[n]];
      BucketSizesSum(photos[..n], keys);
      SumSizesSnoc(photos[..n], photos[n], keys);
    }
  }

  lemma {:induction false} EmptySum(keys: seq<string>)
    ensures SumSizes([], keys) == 0
  {
    if keys != [] {
      EmptySum(keys[..|keys| - 1]);
    }
  }

  /** The keys are exactly the month keys of the photos. */
  lemma {:induction false} KeysOfMembers(photos: seq<Record>, key: string)
    requires Dated(photos)
    ensures key in KeysOf(photos) <==> exists i | 0 <= i < |photos| :: KeyOf(photos[i]) == key
  {
    if photos != [] {
      var n := |photos| - 1;
      KeysOfMembers(photos[..n], key);
      if key in KeysOf(photos[..n]) {
        var i :| 0 <= i < n && KeyOf(photos[..n][i]) == key;
        assert KeyOf(photos[i]) == key;
      }
      if i :| 0 <= i < n && KeyOf(photos[i]) == key {
        assert KeyOf(photos[..n][i]) == key;
      }
    }
  }
}
