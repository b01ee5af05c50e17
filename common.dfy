/** Shared building blocks: optional values, results carrying an exception
    message, and Python dictionaries modelled as insertion-ordered lists of
    (key, value) pairs. */
module Common {

  datatype Option<T> = None | Some(value: T) {
    /** `d.get(k, default)` once the lookup has been done. */
    function GetOr(default: T): T {
      match this
      case Some(v) => v
      case None => default
    }
  }

  /** A computation that either returns a value or raises an exception whose
      text is `error`. */
  datatype Result<T> = Ok(value: T) | Err(error: string)

  /** The keys of a dictionary in insertion order (`list(d.keys())`). */
  function Keys<K, V>(entries: seq<(K, V)>): (ks: seq<K>)
    ensures |ks| == |entries|
    ensures forall i :: 0 <= i < |entries| ==> ks[i] == entries[i].0
  {
    if entries == [] then [] else [entries[0].0] + Keys(entries[1..])
  }

  /** Concatenation regrouped; stated once so that callers with large
      element terms do not rediscover it. */
  lemma AppendAssoc<T>(a: seq<T>, b: seq<T>, c: seq<T>)
    ensures (a + b) + c == a + (b + c)
  {
  }

  /** A non-empty sequence is its front followed by its last element. */
  lemma FrontLast<T>(s: seq<T>)
    requires s != []
    ensures s == s[..|s| - 1] + [s[|s| - 1]]
  {
  }

  /** Keys of a dictionary are pairwise distinct. */
  predicate DistinctKeys<K(==), V>(entries: seq<(K, V)>) {
    forall i, j :: 0 <= i < j < |entries| ==> entries[i].0 != entries[j].0
  }

  predicate HasKey<K(==), V>(entries: seq<(K, V)>, key: K) {
    exists i :: 0 <= i < |entries| && entries[i].0 == key
  }

  /** `d.get(key)` for a dictionary built by assigning the pairs in order:
      the value of the last pair with that key, or None. */
  function LookupLast<K(==), V>(entries: seq<(K, V)>, key: K): (r: Option<V>)
    ensures r.None? <==> !HasKey(entries, key)
    ensures r.Some? ==> exists i :: 0 <= i < |entries| && entries[i] == (key, r.value)
                                    && forall j :: i < j < |entries| ==> entries[j].0 != key
  {
    if entries == [] then None
    else
      var n := |entries| - 1;
      if entries[n].0 == key then Some(entries[n].1)
      else
        var r := LookupLast(entries[..n], key);
        assert forall i :: 0 <= i < n ==> entries[..n][i] == entries[i];
        r
  }

  /** A key that no later pair repeats is looked up to its own value. */
  lemma LookupLastAt<K, V>(entries: seq<(K, V)>, i: nat)
    requires i < |entries|
    requires forall j :: i < j < |entries| ==> entries[j].0 != entries[i].0
    ensures LookupLast(entries, entries[i].0) == Some(entries[i].1)
  {
    var r := LookupLast(entries, entries[i].0);
    var k :| 0 <= k < |entries| && entries[k] == (entries[i].0, r.value)
             && forall j :: k < j < |entries| ==> entries[j].0 != entries[i].0;
    assert k == i;
  }

  /** `a.update(b)` then `get`: a key of `b` answers from `b`, any other
      key from `a`. */
  lemma {:induction false} LookupLastAppend<K, V>(a: seq<(K, V)>, b: seq<(K, V)>, key: K)
    ensures LookupLast(a + b, key) == if HasKey(b, key) then LookupLast(b, key) else LookupLast(a, key)
    decreases |b|
  {
    if b == [] {
      assert a + b == a;
    } else {
      var n := |b| - 1;
      var front := b[..n];
      FrontLast(b);
      AppendAssoc(a, front, [b[n]]);
      LookupLastSnoc(a + front, b[n].0, b[n].1, key);
      LookupLastSnoc(front, b[n].0, b[n].1, key);
      LookupLastAppend(a, front, key);
      HasKeySnoc(front, b[n], key);
    }
  }

  lemma HasKeySnoc<K, V>(front: seq<(K, V)>, last: (K, V), key: K)
    ensures HasKey(front + [last], key) <==> last.0 == key || HasKey(front, key)
  {
    var b := front + [last];
    if HasKey(front, key) {
      var j :| 0 <= j < |front| && front[j].0 == key;
      assert b[j] == front[j];
    }
    if HasKey(b, key) && last.0 != key {
      var j :| 0 <= j < |b| && b[j].0 == key;
      assert j < |front| && front[j] == b[j];
    }
    assert b[|front|] == last;
  }

  /** Assigning one more pair: `d[key] = value` then `d.get(k)`. */
  lemma LookupLastSnoc<K, V>(entries: seq<(K, V)>, key: K, value: V, k: K)
    ensures LookupLast(entries + [(key, value)], k)
            == if k == key then Some(value) else LookupLast(entries, k)
  {
    assert (entries + [(key, value)])[..|entries|] == entries;
  }

  /** Position of the first `x` in `s` (`s.index(x)`). */
  function FirstAt<T(==)>(s: seq<T>, x: T): (i: nat)
    requires x in s
    ensures i < |s| && s[i] == x && x !in s[..i]
  {
    if s[0] == x then 0
    else
      var i := 1 + FirstAt(s[1..], x);
      assert s[..i] == [s[0]] + s[1..][..i - 1];
      i
  }

  /** The values of `s` without repeats, each where it first occurs: the list
      built by appending every value not yet in it. */
  function Dedup<T(==)>(s: seq<T>): seq<T> {
    if s == [] then []
    else
      var d := Dedup(s[..|s| - 1]);
      if s[|s| - 1] in d then d else d + [s[|s| - 1]]
  }

  /** `Dedup` holds every value of `s` exactly once, in order of first
      occurrence. */
  lemma DedupSpec<T>(s: seq<T>)
    ensures forall x :: x in Dedup(s) <==> x in s
    ensures forall i, j :: 0 <= i < j < |Dedup(s)| ==> Dedup(s)[i] != Dedup(s)[j]
    ensures forall i, j :: 0 <= i < j < |Dedup(s)| ==> FirstAt(s, Dedup(s)[i]) < FirstAt(s, Dedup(s)[j])
  {
    DedupMembers(s);
    DedupDistinct(s);
    DedupOrder(s);
  }

  lemma {:induction false} DedupMembers<T>(s: seq<T>)
    ensures forall x :: x in Dedup(s) <==> x in s
  {
    if s != [] {
      var n := |s| - 1;
      DedupMembers(s[..n]);
      assert s == s[..n] + [s[n]];
    }
  }

  lemma {:induction false} DedupDistinct<T>(s: seq<T>)
    ensures forall i, j :: 0 <= i < j < |Dedup(s)| ==> Dedup(s)[i] != Dedup(s)[j]
  {
    if s != [] {
      DedupDistinct(s[..|s| - 1]);
    }
  }

  lemma {:induction false} DedupOrder<T>(s: seq<T>)
    ensures forall x :: x in Dedup(s) ==> x in s
    ensures forall i, j :: 0 <= i < j < |Dedup(s)| ==> FirstAt(s, Dedup(s)[i]) < FirstAt(s, Dedup(s)[j])
  {
    DedupMembers(s);
    if s != [] {
      var n := |s| - 1;
      var p := s[..n];
      var d := Dedup(p);
      var e := Dedup(s);
      DedupOrder(p);
      DedupMembers(p);
      FrontLast(s);
      var x := s[n];
      assert e == if x in d then d else d + [x];
      forall i, j | 0 <= i < j < |e| ensures FirstAt(s, e[i]) < FirstAt(s, e[j]) {
        assert e[i] == d[i] && d[i] in d;
        FirstAtPrefix(p, x, d[i]);
        if j < |d| {
          assert e[j] == d[j] && d[j] in d;
          FirstAtPrefix(p, x, d[j]);
        } else {
          assert e[j] == x && x !in p;
          FirstAtFresh(p, x);
        }
      }
    }
  }

  /** Appending one value to the deduplicated list. */
  lemma DedupSnoc<T>(s: seq<T>, x: T)
    ensures Dedup(s + [x]) == if x in Dedup(s) then Dedup(s) else Dedup(s) + [x]
  {
    assert (s + [x])[..|s|] == s;
  }

  lemma FirstAtPrefix<T>(p: seq<T>, y: T, x: T)
    requires x in p
    ensures FirstAt(p + [y], x) == FirstAt(p, x)
  {
    var s := p + [y];
    var i := FirstAt(p, x);
    assert s[i] == x && s[..i] == p[..i];
  }

  lemma FirstAtFresh<T>(p: seq<T>, y: T)
    requires y !in p
    ensures FirstAt(p + [y], y) == |p|
  {
    assert (p + [y])[|p|] == y;
  }
}
