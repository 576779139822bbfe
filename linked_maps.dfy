/**
 * `LinkedHashMap<String, String>` as the save code uses it: a sequence of
 * key/value entries in insertion order, with `put` and `get`.
 */
module LinkedMaps {
  import opened Wrappers

  type Entry = (string, string)

  predicate HasKey(m: seq<Entry>, k: string) {
    exists i :: 0 <= i < |m| && m[i].0 == k
  }

  /** A map never holds a key twice. */
  predicate UniqueKeys(m: seq<Entry>) {
    forall i, j :: 0 <= i < j < |m| ==> m[i].0 != m[j].0
  }

  /** The position of the first entry with key `k`. */
  function KeyIndex(m: seq<Entry>, k: string): (r: Option<nat>)
    ensures r.None? <==> !HasKey(m, k)
    ensures r.Some? ==> r.value < |m| && m[r.value].0 == k
    ensures r.Some? ==> forall i :: 0 <= i < r.value ==> m[i].0 != k
  {
    if m == [] then None
    else if m[0].0 == k then Some(0)
    else
      match KeyIndex(m[1..], k)
      case None =>
        assert !HasKey(m, k) by {
          forall i | 0 <= i < |m| ensures m[i].0 != k {
            if i > 0 { assert m[i] == m[1..][i - 1]; }
          }
        }
        None
      case Some(j) => Some(j + 1)
  }

  /** `get`: the value stored under `k`, `None` for Java's `null`. */
  function Get(m: seq<Entry>, k: string): (r: Option<string>)
    ensures r.None? <==> !HasKey(m, k)
    ensures UniqueKeys(m) ==> forall i :: 0 <= i < |m| && m[i].0 == k ==> r == Some(m[i].1)
  {
    match KeyIndex(m, k)
    case None => None
    case Some(i) => Some(m[i].1)
  }

  /**
   * `put`: a key already present keeps its place and takes the new value; a
   * new key goes at the end.
   */
  function Put(m: seq<Entry>, k: string, v: string): (r: seq<Entry>)
    ensures !HasKey(m, k) ==> r == m + [(k, v)]
  {
    match KeyIndex(m, k)
    case None => m + [(k, v)]
    case Some(i) => m[i := (k, v)]
  }

  /** `put` on a present key keeps every key in its place and touches no other entry; keys stay unique. */
  lemma PutKeeps(m: seq<Entry>, k: string, v: string)
    ensures HasKey(m, k) ==> |Put(m, k, v)| == |m| && forall i :: 0 <= i < |m| ==> Put(m, k, v)[i].0 == m[i].0
    ensures forall i :: 0 <= i < |m| && m[i].0 != k ==> Put(m, k, v)[i] == m[i]
    ensures UniqueKeys(m) ==> UniqueKeys(Put(m, k, v))
  {
    var r := Put(m, k, v);
    if UniqueKeys(m) && !HasKey(m, k) {
      assert forall i :: 0 <= i < |m| ==> r[i] == m[i] && r[|m|].0 == k;
    }
  }

  /** After `put(k, v)`, `get(k)` is `v` and every other key reads as before. */
  lemma GetPut(m: seq<Entry>, k: string, v: string, k': string)
    ensures Get(Put(m, k, v), k') == if k' == k then Some(v) else Get(m, k')
  {
    var r := Put(m, k, v);
    PutKeeps(m, k, v);
    var a := KeyIndex(m, k');
    var b := KeyIndex(r, k');
    if k' == k {
      if a.Some? { assert a.value < |m| && r[a.value].0 == k; }
      else { assert r[|m|].0 == k; }
    } else if a.Some? {
      assert r[a.value] == m[a.value];
    } else {
      assert forall i :: 0 <= i < |r| ==> r[i].0 != k';
    }
  }

  /** A run of `put` calls, in order. */
  function PutAll(m: seq<Entry>, es: seq<Entry>): seq<Entry> {
    if es == [] then m else Put(PutAll(m, es[..|es| - 1]), es[|es| - 1].0, es[|es| - 1].1)
  }

  /** One more `put` after a run of them. */
  lemma PutAllSnoc(m: seq<Entry>, es: seq<Entry>, e: Entry)
    ensures PutAll(m, es + [e]) == Put(PutAll(m, es), e.0, e.1)
  {
    assert (es + [e])[..|es|] == es;
  }

  /** A run of three `put` calls. */
  lemma PutThree(m: seq<Entry>, e0: Entry, e1: Entry, e2: Entry)
    ensures PutAll(m, [e0, e1, e2]) == Put(Put(Put(m, e0.0, e0.1), e1.0, e1.1), e2.0, e2.1)
  {
    PutAllSnoc(m, [], e0);
    PutAllSnoc(m, [e0], e1);
    PutAllSnoc(m, [e0, e1], e2);
    assert [] + [e0] == [e0] && [e0] + [e1] == [e0, e1] && [e0, e1] + [e2] == [e0, e1, e2];
  }

  /** A run of four `put` calls. */
  lemma PutFour(m: seq<Entry>, e0: Entry, e1: Entry, e2: Entry, e3: Entry)
    ensures PutAll(m, [e0, e1, e2, e3]) == Put(Put(Put(Put(m, e0.0, e0.1), e1.0, e1.1), e2.0, e2.1), e3.0, e3.1)
  {
    PutAllSnoc(m, [], e0);
    PutAllSnoc(m, [e0], e1);
    PutAllSnoc(m, [e0, e1], e2);
    PutAllSnoc(m, [e0, e1, e2], e3);
    assert [] + [e0] == [e0] && [e0] + [e1] == [e0, e1];
    assert [e0, e1] + [e2] == [e0, e1, e2] && [e0, e1, e2] + [e3] == [e0, e1, e2, e3];
  }

  /** Two runs of `put` calls are one run. */
  lemma {:induction false} PutAllAppend(m: seq<Entry>, a: seq<Entry>, b: seq<Entry>)
    ensures PutAll(m, a + b) == PutAll(PutAll(m, a), b)
    decreases |b|
  {
    if b == [] {
      assert a + b == a;
    } else {
      var n := |b| - 1;
      assert a + b == (a + b[..n]) + [b[n]];
      assert b == b[..n] + [b[n]];
      PutAllSnoc(m, a + b[..n], b[n]);
      PutAllSnoc(PutAll(m, a), b[..n], b[n]);
      PutAllAppend(m, a, b[..n]);
    }
  }

  /** Putting entries with distinct keys into a map without them gives exactly those entries, in order. */
  lemma {:induction false} PutAllFresh(m: seq<Entry>, es: seq<Entry>)
    requires UniqueKeys(m + es)
    ensures PutAll(m, es) == m + es
    decreases |es|
  {
    if es != [] {
      var n := |es| - 1;
      assert m + es == (m + es[..n]) + [es[n]];
      assert UniqueKeys(m + es[..n]) by {
        forall i, j | 0 <= i < j < |m + es[..n]| ensures (m + es[..n])[i].0 != (m + es[..n])[j].0 {
          assert (m + es[..n])[i] == (m + es)[i] && (m + es[..n])[j] == (m + es)[j];
        }
      }
      PutAllFresh(m, es[..n]);
      assert !HasKey(m + es[..n], es[n].0) by {
        forall i | 0 <= i < |m + es[..n]| ensures (m + es[..n])[i].0 != es[n].0 {
          assert (m + es[..n])[i] == (m + es)[i] && (m + es)[|m| + n] == es[n];
        }
      }
    }
  }
}
