/** The OSM primitives the handlers receive from the file reader, with
    geometry kept opaque, and the two ways the handlers turn them into
    stored records: a tag dictionary built from the tag list, and the list
    of way members of a relation. */
module Osm {
  import opened Values
  import opened PyDict
  import Classifier

  /** A line geometry, opaque: only its identity is modelled. */
  datatype Line = Line(token: int)

  /** A relation member: its type ('n', 'w' or 'r') and the referenced id. */
  datatype Member = Member(kind: char, ref: int)

  /** A way as the reader delivers it; `line` is None when building its
      line geometry raises. */
  datatype OsmWay = OsmWay(id: int, tags: seq<(string, string)>, line: Option<Line>)

  /** A relation as the reader delivers it. */
  datatype OsmRelation = OsmRelation(id: int, user: string, tags: seq<(string, string)>, members: seq<Member>)

  /** A changeset as the reader delivers it: its id, author and comment. */
  datatype OsmChangeset = OsmChangeset(id: int, user: string, comment: string)

  /** The dictionary `init` after `tags[k] = v` for each pair in order. */
  function TagDict(init: Dict<string, Val>, pairs: seq<(string, string)>): Dict<string, Val> {
    if pairs == [] then init
    else Put(TagDict(init, pairs[..|pairs| - 1]), pairs[|pairs| - 1].0, Text(pairs[|pairs| - 1].1))
  }

  /** The handlers' loop storing each tag of a tag list into a dictionary
      that starts as `init`. */
  method StoreTags(init: Dict<string, Val>, pairs: seq<(string, string)>) returns (d: Dict<string, Val>)
    ensures d == TagDict(init, pairs)
  {
    d := init;
    var i := 0;
    while i < |pairs|
      invariant 0 <= i <= |pairs|
      invariant d == TagDict(init, pairs[..i])
    {
      TagDictStep(init, pairs, i);
      d := Put(d, pairs[i].0, Text(pairs[i].1));
      i := i + 1;
    }
    assert pairs[..i] == pairs;
  }

  /** One more pair stored. */
  lemma TagDictStep(init: Dict<string, Val>, pairs: seq<(string, string)>, i: nat)
    requires i < |pairs|
    ensures TagDict(init, pairs[..i + 1]) == Put(TagDict(init, pairs[..i]), pairs[i].0, Text(pairs[i].1))
  {
    assert pairs[..i + 1][..i] == pairs[..i];
  }

  /** The value of the last pair with key `k`. */
  function LastTag(pairs: seq<(string, string)>, k: string): Option<string> {
    if pairs == [] then None
    else if pairs[|pairs| - 1].0 == k then Some(pairs[|pairs| - 1].1)
    else LastTag(pairs[..|pairs| - 1], k)
  }

  /** A key has a last pair exactly when some pair carries it. */
  lemma {:induction false} LastTagSome(pairs: seq<(string, string)>, k: string)
    ensures LastTag(pairs, k).Some? <==> exists i :: 0 <= i < |pairs| && pairs[i].0 == k
  {
    if pairs != [] {
      var n := |pairs| - 1;
      LastTagSome(pairs[..n], k);
      if exists i :: 0 <= i < |pairs| && pairs[i].0 == k {
        var i :| 0 <= i < |pairs| && pairs[i].0 == k;
        if i < n {
          assert pairs[..n][i].0 == k;
        }
      }
    }
  }

  /** A key takes the value of its last pair; a key with no pair keeps its
      value from `init`. */
  lemma {:induction false} TagDictGet(init: Dict<string, Val>, pairs: seq<(string, string)>, k: string)
    ensures Get(TagDict(init, pairs), k) ==
            if LastTag(pairs, k).Some? then Some(Text(LastTag(pairs, k).value)) else Get(init, k)
  {
    if pairs != [] {
      var n := |pairs| - 1;
      TagDictGet(init, pairs[..n], k);
      PutGet(TagDict(init, pairs[..n]), pairs[n].0, Text(pairs[n].1), k);
    }
  }

  /** Keys stay distinct, and only the "id" entry of `init` can hold
      something other than text. */
  lemma {:induction false} TagDictWellFormed(init: Dict<string, Val>, pairs: seq<(string, string)>)
    requires DistinctKeys(init) && Classifier.OsmTagged(init)
    ensures DistinctKeys(TagDict(init, pairs)) && Classifier.OsmTagged(TagDict(init, pairs))
  {
    if pairs != [] {
      var n := |pairs| - 1;
      var d := TagDict(init, pairs[..n]);
      TagDictWellFormed(init, pairs[..n]);
      PutDistinct(d, pairs[n].0, Text(pairs[n].1));
      PutTagged(d, pairs[n].0, Text(pairs[n].1));
    }
  }

  lemma {:induction false} PutTagged(d: Dict<string, Val>, k: string, v: Val)
    requires Classifier.OsmTagged(d) && (k != "id" ==> v.Text?)
    ensures Classifier.OsmTagged(Put(d, k, v))
  {
    forall i | 0 <= i < |Put(d, k, v)| && Put(d, k, v)[i].0 != "id" ensures Put(d, k, v)[i].1.Text? {
      PutEntry(d, k, v, i);
    }
  }

  lemma {:induction false} PutEntry<K, V>(d: Dict<K, V>, k: K, v: V, i: nat)
    requires i < |Put(d, k, v)|
    ensures Put(d, k, v)[i] == (k, v) || (i < |d| && Put(d, k, v)[i] == d[i])
  {
    if d != [] && d[0].0 != k && i > 0 {
      PutEntry(d[1..], k, v, i - 1);
    }
  }

  /** The ids of the way members, in declared order. */
  function WayRefs(ms: seq<Member>): seq<int> {
    if ms == [] then []
    else WayRefs(ms[..|ms| - 1]) + (if ms[|ms| - 1].kind == 'w' then [ms[|ms| - 1].ref] else [])
  }

  /** The handlers' loop collecting the ids of the way members. */
  method CollectWayRefs(ms: seq<Member>) returns (refs: seq<int>)
    ensures refs == WayRefs(ms)
  {
    refs := [];
    var i := 0;
    while i < |ms|
      invariant 0 <= i <= |ms|
      invariant refs == WayRefs(ms[..i])
    {
      WayRefsStep(ms, i);
      if ms[i].kind == 'w' {
        refs := refs + [ms[i].ref];
      }
      i := i + 1;
    }
    assert ms[..i] == ms;
  }

  /** One more member filtered. */
  lemma WayRefsStep(ms: seq<Member>, i: nat)
    requires i < |ms|
    ensures WayRefs(ms[..i + 1]) == WayRefs(ms[..i]) + (if ms[i].kind == 'w' then [ms[i].ref] else [])
  {
    assert ms[..i + 1][..i] == ms[..i];
  }

  /** Filtering keeps the order: it distributes over concatenation and
      keeps exactly the way members. */
  lemma {:induction false} WayRefsAppend(a: seq<Member>, b: seq<Member>)
    ensures WayRefs(a + b) == WayRefs(a) + WayRefs(b)
    decreases |b|
  {
    if b != [] {
      var n := |b| - 1;
      assert (a + b)[..|a + b| - 1] == a + b[..n];
      WayRefsAppend(a, b[..n]);
    } else {
      assert a + b == a;
    }
  }

  lemma WayRefsSingle(m: Member)
    ensures WayRefs([m]) == if m.kind == 'w' then [m.ref] else []
  {
    assert [m][..0] == [];
  }

  /** An id is kept exactly when some way member refers to it. */
  lemma {:induction false} WayRefsMembers(ms: seq<Member>, x: int)
    ensures x in WayRefs(ms) <==> exists i :: 0 <= i < |ms| && ms[i] == Member('w', x)
  {
    if ms != [] {
      var n := |ms| - 1;
      WayRefsMembers(ms[..n], x);
      if exists i :: 0 <= i < |ms| && ms[i] == Member('w', x) {
        var i :| 0 <= i < |ms| && ms[i] == Member('w', x);
        if i < n { assert ms[..n][i] == ms[i]; }
      }
      if exists i :: 0 <= i < n && ms[..n][i] == Member('w', x) {
        var i :| 0 <= i < n && ms[..n][i] == Member('w', x);
        assert ms[i] == Member('w', x);
      }
    }
  }
}
