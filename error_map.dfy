/**
 * The per-request error collection: a LinkedHashMap<String, List<String>> from
 * field name to its messages, kept in insertion order, and the ExceptionList
 * that carries it out of the service.
 */
module ErrorMap {

  type Entry = (string, seq<string>)

  /** No field name occurs twice: the map property of a LinkedHashMap. */
  ghost predicate UniqueKeys(m: seq<Entry>) {
    forall i, j :: 0 <= i < j < |m| ==> m[i].0 != m[j].0
  }

  /** Entries in insertion order, one per field name. */
  type ErrorMap = m: seq<Entry> | UniqueKeys(m) witness []

  predicate HasKey(m: seq<Entry>, k: string) {
    exists i :: 0 <= i < |m| && m[i].0 == k
  }

  /** The position of key k, or |m| when k is absent. */
  function IndexOf(m: seq<Entry>, k: string): (i: nat)
    ensures i <= |m|
    ensures i < |m| ==> m[i].0 == k
    ensures forall j :: 0 <= j < i ==> m[j].0 != k
  {
    if m == [] || m[0].0 == k then 0 else 1 + IndexOf(m[1..], k)
  }

  /**
   * LinkedHashMap.put: a new key is appended at the end; an existing key keeps
   * its position and only its value is replaced.
   */
  function Put(m: ErrorMap, k: string, v: seq<string>): (r: ErrorMap)
    ensures |r| == if HasKey(m, k) then |m| else |m| + 1
    ensures forall i :: 0 <= i < |m| ==> r[i] == if m[i].0 == k then (k, v) else m[i]
    ensures !HasKey(m, k) ==> r[|m|] == (k, v)
  {
    var i := IndexOf(m, k);
    if i < |m| then m[i := (k, v)]
    else m + [(k, v)]
  }

  /** map.get(k), with an absent key read as the empty list. */
  function Get(m: ErrorMap, k: string): (v: seq<string>)
    ensures HasKey(m, k) ==> exists i :: 0 <= i < |m| && m[i] == (k, v)
    ensures !HasKey(m, k) ==> v == []
  {
    var i := IndexOf(m, k);
    if i < |m| then m[i].1 else []
  }

  /** With unique keys, the entry at position i is what Get finds for its key. */
  lemma GetAt(m: ErrorMap, i: nat)
    requires i < |m|
    ensures HasKey(m, m[i].0) && Get(m, m[i].0) == m[i].1
  {
    var j := IndexOf(m, m[i].0);
  }

  /**
   * The service's test for a failed validation: the list of some field is
   * non-empty, that is, some key's value read through Get is non-empty.
   */
  predicate HasErrors(m: ErrorMap): (failed: bool)
    ensures failed <==> exists k :: HasKey(m, k) && Get(m, k) != []
  {
    SomeListNonEmpty(m);
    exists i :: 0 <= i < |m| && m[i].1 != []
  }

  /** A non-empty entry is a key whose value is non-empty, and the converse. */
  lemma SomeListNonEmpty(m: ErrorMap)
    ensures (exists i :: 0 <= i < |m| && m[i].1 != []) <==> exists k :: HasKey(m, k) && Get(m, k) != []
  {
    if i :| 0 <= i < |m| && m[i].1 != [] {
      GetAt(m, i);
    }
  }

  /** The first put into an empty map. */
  lemma PutIntoEmpty(k: string, v: seq<string>)
    ensures Put([], k, v) == [(k, v)]
  {
  }

  /** A put of a second, different key appends it. */
  lemma PutSecond(k1: string, v1: seq<string>, k2: string, v2: seq<string>)
    requires k1 != k2
    ensures Put([(k1, v1)], k2, v2) == [(k1, v1), (k2, v2)]
  {
    assert !HasKey([(k1, v1)], k2);
  }

  /** A put of the second key replaces its list in place. */
  lemma PutSecondAgain(k1: string, v1: seq<string>, k2: string, v2: seq<string>, v3: seq<string>)
    requires k1 != k2
    ensures Put([(k1, v1), (k2, v2)], k2, v3) == [(k1, v1), (k2, v3)]
  {
    var m: ErrorMap := [(k1, v1), (k2, v2)];
    assert HasKey(m, k2) by { assert m[1].0 == k2; }
  }

  lemma HasErrorsOne(k: string, v: seq<string>)
    ensures HasErrors([(k, v)]) <==> v != []
  {
    var m: ErrorMap := [(k, v)];
    if v != [] { assert m[0].1 != []; }
  }

  lemma HasErrorsTwo(k1: string, v1: seq<string>, k2: string, v2: seq<string>)
    requires k1 != k2
    ensures HasErrors([(k1, v1), (k2, v2)]) <==> v1 != [] || v2 != []
  {
    var m: ErrorMap := [(k1, v1), (k2, v2)];
    if v1 != [] { assert m[0].1 != []; }
    if v2 != [] { assert m[1].1 != []; }
  }

  /** Putting the same key twice leaves only the second value, at the first one's place. */
  lemma {:induction false} PutOverwrites(m: ErrorMap, k: string, v1: seq<string>, v2: seq<string>)
    ensures Put(Put(m, k, v1), k, v2) == Put(m, k, v2)
  {
    var a := Put(m, k, v1);
    assert HasKey(a, k) by {
      if HasKey(m, k) {
        var i :| 0 <= i < |m| && m[i].0 == k;
        assert a[i].0 == k;
      } else {
        assert a[|m|].0 == k;
      }
    }
  }

  /** The payload of the ExceptionList the service throws on a validation failure. */
  datatype ExceptionList = ExceptionList(errors: ErrorMap)

  /** A service call either returns a value or throws an ExceptionList. */
  datatype Result<+T> = Ok(value: T) | Thrown(exception: ExceptionList)
}
