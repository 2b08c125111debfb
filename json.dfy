/**
 * Decoded JSON values and Python dictionaries.  A dictionary keeps its
 * insertion order (as Python's does), so it is a list of (key, value) pairs;
 * a dictionary built by Python never repeats a key (`DistinctKeys`).
 */
module Json {
  import opened Wrappers

  datatype Json =
    | JNull
    | JBool(b: bool)
    | JInt(i: int)
    | JStr(s: string)
    | JList(items: seq<Json>)
    | JObj(fields: seq<(string, Json)>)

  type Dict = seq<(string, Json)>

  predicate HasKey(d: Dict, k: string) {
    exists i | 0 <= i < |d| :: d[i].0 == k
  }

  predicate DistinctKeys(d: Dict) {
    forall i, j | 0 <= i < j < |d| :: d[i].0 != d[j].0
  }

  /** `d[k]` when present, `None` when `k not in d`. */
  function Lookup(d: Dict, k: string): (r: Option<Json>)
    ensures r.Some? <==> HasKey(d, k)
    ensures r.Some? ==> (k, r.value) in d
  {
    if d == [] then None
    else if d[0].0 == k then Some(d[0].1)
    else
      var r := Lookup(d[1..], k);
      assert forall i | 1 <= i < |d| :: d[i] == d[1..][i - 1];
      r
  }

  /** The first entry with key `k` is the one `Lookup` finds. */
  lemma {:induction false} LookupAt(d: Dict, k: string, i: nat)
    requires i < |d| && d[i].0 == k
    requires forall j | 0 <= j < i :: d[j].0 != k
    ensures Lookup(d, k) == Some(d[i].1)
    decreases i
  {
    if i > 0 {
      LookupAt(d[1..], k, i - 1);
    }
  }

  /** In a dictionary with distinct keys every entry is found by its key. */
  lemma LookupDistinct(d: Dict, i: nat)
    requires DistinctKeys(d) && i < |d|
    ensures Lookup(d, d[i].0) == Some(d[i].1)
  {
    LookupAt(d, d[i].0, i);
  }

  lemma HasKeyCons(x: (string, Json), d: Dict)
    ensures forall k :: HasKey([x] + d, k) <==> k == x.0 || HasKey(d, k)
  {
    assert ([x] + d)[0].0 == x.0;
    forall k | HasKey([x] + d, k) && k != x.0
      ensures HasKey(d, k)
    {
      var i :| 0 <= i < |[x] + d| && ([x] + d)[i].0 == k;
      assert d[i - 1].0 == k;
    }
    forall k | HasKey(d, k)
      ensures HasKey([x] + d, k)
    {
      var i :| 0 <= i < |d| && d[i].0 == k;
      assert ([x] + d)[i + 1].0 == k;
    }
  }

  /** Python's `d.get(k, default)`. */
  function Get(d: Dict, k: string, default: Json): Json {
    Lookup(d, k).GetOr(default)
  }

  /** Python's `list(d.values())`. */
  function Values(d: Dict): (r: seq<Json>)
    ensures |r| == |d| && forall i | 0 <= i < |d| :: r[i] == d[i].1
  {
    seq(|d|, i requires 0 <= i < |d| => d[i].1)
  }

  /** Python's `d[k] = v`: replaces the value in place or appends a new entry. */
  function Put(d: Dict, k: string, v: Json): (r: Dict)
    ensures Lookup(r, k) == Some(v)
    ensures forall k' | k' != k :: Lookup(r, k') == Lookup(d, k')
  {
    if d == [] then [(k, v)]
    else if d[0].0 == k then [(k, v)] + d[1..]
    else [d[0]] + Put(d[1..], k, v)
  }

  /** The tail of a dictionary keeps distinct keys and lacks the head's key. */
  lemma DistinctTail(d: Dict)
    requires DistinctKeys(d) && d != []
    ensures DistinctKeys(d[1..]) && !HasKey(d[1..], d[0].0)
  {
    assert forall i | 0 <= i < |d| - 1 :: d[1..][i] == d[i + 1];
  }

  /** An entry whose key is new can be put in front. */
  lemma DistinctCons(x: (string, Json), d: Dict)
    requires DistinctKeys(d) && !HasKey(d, x.0)
    ensures DistinctKeys([x] + d)
  {
    var r := [x] + d;
    forall i, j | 0 <= i < j < |r|
      ensures r[i].0 != r[j].0
    {
      assert r[j] == d[j - 1];
      if i > 0 {
        assert r[i] == d[i - 1];
      }
    }
  }

  lemma {:induction false} PutKeepsKeysDistinct(d: Dict, k: string, v: Json)
    requires DistinctKeys(d)
    ensures DistinctKeys(Put(d, k, v))
  {
    if d != [] {
      DistinctTail(d);
      if d[0].0 != k {
        var rest := Put(d[1..], k, v);
        PutKeepsKeysDistinct(d[1..], k, v);
        assert Lookup(rest, d[0].0) == Lookup(d[1..], d[0].0);
        DistinctCons(d[0], rest);
      } else {
        DistinctCons((k, v), d[1..]);
      }
    }
  }

  /** Python's `d.update(p)` for a dictionary `p`: its entries are put in order. */
  function Update(d: Dict, p: Dict): (r: Dict)
    requires DistinctKeys(p)
    ensures forall k | HasKey(p, k) :: Lookup(r, k) == Lookup(p, k)
    ensures forall k | !HasKey(p, k) :: Lookup(r, k) == Lookup(d, k)
    ensures DistinctKeys(d) ==> DistinctKeys(r)
    decreases |p|
  {
    if p == [] then d
    else
      var tail := p[1..];
      assert forall i | 1 <= i < |p| :: p[i] == tail[i - 1];
      HasKeyCons(p[0], tail);
      assert p == [p[0]] + tail;
      assert !HasKey(tail, p[0].0);
      var d' := Put(d, p[0].0, p[0].1);
      if DistinctKeys(d) then PutKeepsKeysDistinct(d, p[0].0, p[0].1); Update(d', tail)
      else Update(d', tail)
  }

  /** An optional Python value as it serialises: `None` becomes null. */
  function OptInt(v: Option<int>): Json {
    match v
    case Some(i) => JInt(i)
    case None => JNull
  }

  function OptStr(v: Option<string>): Json {
    match v
    case Some(s) => JStr(s)
    case None => JNull
  }

  function OptJson(v: Option<Json>): Json {
    v.GetOr(JNull)
  }

  /** Python truthiness of a decoded JSON value. */
  predicate Truthy(j: Json) {
    match j
    case JNull => false
    case JBool(b) => b
    case JInt(i) => i != 0
    case JStr(s) => s != []
    case JList(items) => items != []
    case JObj(fields) => fields != []
  }
}
