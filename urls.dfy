/** URLs split into their six components, with the query string held as the
    parsed dictionary: an ordered list of keys, each mapped to its list of values. */
module Urls {
  import opened Wrappers

  /** Query string entries: a key with its list of values, in order. */
  type Entries = seq<(string, seq<string>)>

  /** The keys of the entries, in order. */
  function Keys(q: Entries): seq<string> {
    seq(|q|, i requires 0 <= i < |q| => q[i].0)
  }

  /** No key occurs twice, as in any dictionary. */
  predicate DistinctKeys(q: Entries) {
    forall i, j :: 0 <= i < j < |q| ==> Keys(q)[i] != Keys(q)[j]
  }

  /** A parsed query string: a dictionary in its insertion order. */
  type QueryDict = q: Entries | DistinctKeys(q)

  /** scheme://netloc/path;params?query#fragment */
  datatype Url = Url(
    scheme: string,
    netloc: string,
    path: string,
    params: string,
    query: QueryDict,
    fragment: string)

  /** Dictionary lookup: the values held under `k`, if `k` is present. */
  function Get(q: Entries, k: string): Option<seq<string>> {
    if q == [] then None
    else if q[0].0 == k then Some(q[0].1)
    else Get(q[1..], k)
  }

  /** A lookup finds a value exactly for the keys of the dictionary. */
  lemma {:induction false} GetFindsKeys(q: Entries, k: string)
    ensures Get(q, k).Some? <==> k in Keys(q)
  {
    if q != [] {
      GetFindsKeys(q[1..], k);
      assert Keys(q) == [q[0].0] + Keys(q[1..]);
    }
  }

  /** Without its first entry a dictionary is still one, and lacks the first key. */
  lemma DropFirstKeepsKeysDistinct(q: QueryDict)
    requires q != []
    ensures DistinctKeys(q[1..])
    ensures forall j :: 0 <= j < |q| - 1 ==> q[1..][j].0 != q[0].0
  {
    var t := q[1..];
    forall i, j | 0 <= i < j < |t| ensures Keys(t)[i] != Keys(t)[j] {
      assert Keys(t)[i] == Keys(q)[i + 1] && Keys(t)[j] == Keys(q)[j + 1];
    }
    forall j | 0 <= j < |t| ensures t[j].0 != q[0].0 {
      assert t[j].0 == Keys(q)[j + 1] && q[0].0 == Keys(q)[0];
    }
  }

  /** Putting an entry in front of a dictionary that lacks its key gives a dictionary. */
  lemma PrependKeepsKeysDistinct(e: (string, seq<string>), rest: QueryDict)
    requires forall j :: 0 <= j < |rest| ==> rest[j].0 != e.0
    ensures DistinctKeys([e] + rest)
  {
    var r := [e] + rest;
    forall i, j | 0 <= i < j < |r| ensures Keys(r)[i] != Keys(r)[j] {
      assert Keys(r)[j] == rest[j - 1].0 == Keys(rest)[j - 1];
      if i > 0 { assert Keys(r)[i] == rest[i - 1].0 == Keys(rest)[i - 1]; }
    }
  }

  /** Dictionary update with one entry: the values of `k` are replaced where
      `k` already stands, or `k` is added after every existing key. */
  function Update(q: QueryDict, k: string, v: seq<string>): (r: QueryDict)
    ensures Get(r, k) == Some(v)
    ensures forall k' :: k' != k ==> Get(r, k') == Get(q, k')
    ensures |r| == if Get(q, k).Some? then |q| else |q| + 1
    ensures forall i :: 0 <= i < |q| ==> r[i].0 == q[i].0
    ensures Get(q, k).None? ==> r[|q|].0 == k
  {
    if q == [] then [(k, v)]
    else
      DropFirstKeepsKeysDistinct(q);
      var tail: QueryDict := q[1..];
      if q[0].0 == k then
        PrependKeepsKeysDistinct((k, v), tail);
        var r: QueryDict := [(k, v)] + tail;
        assert r[1..] == tail;
        r
      else
        var rest := Update(tail, k, v);
        assert forall j :: 0 <= j < |rest| ==> rest[j].0 != q[0].0 by {
          forall j | 0 <= j < |rest| ensures rest[j].0 != q[0].0 {
            if j < |tail| { assert rest[j].0 == tail[j].0; }
          }
        }
        PrependKeepsKeysDistinct(q[0], rest);
        var r: QueryDict := [q[0]] + rest;
        assert r[1..] == rest;
        r
  }

  /** The keys after an update: unchanged when the key was present, otherwise
      the key appended after all of them. */
  lemma UpdateKeys(q: QueryDict, k: string, v: seq<string>)
    ensures k in Keys(q) ==> Keys(Update(q, k, v)) == Keys(q)
    ensures k !in Keys(q) ==> Keys(Update(q, k, v)) == Keys(q) + [k]
  {
    GetFindsKeys(q, k);
    var r := Update(q, k, v);
    var kr, kq := Keys(r), Keys(q);
    assert forall i :: 0 <= i < |q| ==> kr[i] == kq[i];
    if k in kq {
      assert kr == kq;
    } else {
      assert kr[|q|] == k;
      assert kr == kq + [k];
    }
  }
}
