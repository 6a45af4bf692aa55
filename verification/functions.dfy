/** The pure helpers of caiosm/functions.py: bounding-box axis swap,
    network filter, tag-key cleaning and the CSV row projection. */
module Functions {
  import opened Values
  import opened PyDict
  import opened Strings

  /** `invert_bbox`: turns `XMIN,YMIN,XMAX,YMAX` into `YMIN,XMIN,YMAX,XMAX`.
      Fewer than four comma-separated fields raise IndexError; fields past
      the fourth are dropped. */
  function InvertBbox(bbox: string): (r: Result<string>)
    ensures r.Err? <==> |Split(bbox, ",")| < 4
    ensures r.Err? ==> r.error == IndexError
  {
    var l := Split(bbox, ",");
    if |l| < 4 then Err(IndexError)
    else Ok(Join([l[1], l[0], l[3], l[2]], ","))
  }

  /** The swapped string splits into the second, first, fourth and third
      fields of the input. */
  lemma InvertBboxFields(bbox: string)
    requires |Split(bbox, ",")| >= 4
    ensures var l := Split(bbox, ",");
            Split(InvertBbox(bbox).value, ",") == [l[1], l[0], l[3], l[2]]
  {
    var l := Split(bbox, ",");
    SplitFieldsFree(bbox, ',');
    SplitJoin([l[1], l[0], l[3], l[2]], ',');
  }

  /** Swapping twice gives back the first four fields of the input, so on a
      four-field string the swap is its own inverse. */
  lemma InvertBboxTwice(bbox: string)
    requires |Split(bbox, ",")| >= 4
    ensures InvertBbox(InvertBbox(bbox).value) == Ok(Join(Split(bbox, ",")[..4], ","))
    ensures |Split(bbox, ",")| == 4 ==> InvertBbox(InvertBbox(bbox).value) == Ok(bbox)
  {
    var l := Split(bbox, ",");
    InvertBboxFields(bbox);
    assert [l[0], l[1], l[2], l[3]] == l[..4];
    if |l| == 4 {
      assert l[..4] == l;
      JoinSplit(bbox, ",");
    }
  }

  /** Fields past the fourth do not affect the result. */
  lemma InvertBboxDropsExtra(bbox: string)
    requires |Split(bbox, ",")| >= 4
    ensures InvertBbox(Join(Split(bbox, ",")[..4], ",")) == InvertBbox(bbox)
  {
    var l := Split(bbox, ",");
    SplitFieldsFree(bbox, ',');
    SplitJoin(l[..4], ',');
  }

  const Networks: seq<string> := ["lwn", "rwn", "nwn", "iwn"]

  /** `check_network`: the Overpass filter for one of the four network
      levels, and the empty filter for anything else. */
  function CheckNetwork(net: string): (r: string)
    ensures r != "" <==> net in Networks
    ensures net in Networks ==> r == "[\"network\"=\"" + net + "\"]"
  {
    if net in Networks then "[\"network\"=\"" + net + "\"]" else ""
  }

  /** The key `clean_tags` gives to `k`: every ':' removed. */
  function CleanKey(k: string): (r: string)
    ensures ':' !in r
    ensures ':' !in k ==> r == k
  {
    RemoveChar(k, ':')
  }

  /** What `clean_tags` returns: the entries are visited in order and each
      is stored under its cleaned key, so a later key that cleans to the
      same string overwrites an earlier one. */
  function Cleaned<V>(tags: Dict<string, V>): (r: Dict<string, V>)
    ensures DistinctKeys(r)
  {
    if tags == [] then []
    else
      var last := tags[|tags| - 1];
      var prev := Cleaned(tags[..|tags| - 1]);
      PutDistinct(prev, CleanKey(last.0), last.1);
      Put(prev, CleanKey(last.0), last.1)
  }

  /** `clean_tags` */
  method CleanTags<V>(tags: Dict<string, V>) returns (newtags: Dict<string, V>)
    ensures newtags == Cleaned(tags)
  {
    newtags := [];
    var i := 0;
    while i < |tags|
      invariant 0 <= i <= |tags|
      invariant newtags == Cleaned(tags[..i])
    {
      var (k, v) := tags[i];
      CleanedStep(tags, i);
      if ':' in k {
        newtags := Put(newtags, RemoveChar(k, ':'), v);
      } else {
        newtags := Put(newtags, k, v);
      }
      i := i + 1;
    }
    assert tags[..i] == tags;
  }

  lemma CleanedStep<V>(tags: Dict<string, V>, i: nat)
    requires i < |tags|
    ensures Cleaned(tags[..i + 1]) == Put(Cleaned(tags[..i]), CleanKey(tags[i].0), tags[i].1)
  {
    assert tags[..i + 1][..i] == tags[..i];
  }

  /** No key of the result contains ':', the result has no more entries
      than the input, and every entry is the cleaned key and the value of
      some input entry. */
  lemma {:induction false} CleanedShape<V>(tags: Dict<string, V>)
    ensures |Cleaned(tags)| <= |tags|
    ensures forall i :: 0 <= i < |Cleaned(tags)| ==> ':' !in Cleaned(tags)[i].0
    ensures forall i :: 0 <= i < |Cleaned(tags)| ==>
              exists j :: 0 <= j < |tags| && Cleaned(tags)[i] == (CleanKey(tags[j].0), tags[j].1)
  {
    if tags != [] {
      var n := |tags| - 1;
      var prev := Cleaned(tags[..n]);
      CleanedShape(tags[..n]);
      var k, v := CleanKey(tags[n].0), tags[n].1;
      var r := Cleaned(tags);
      assert r == Put(prev, k, v);
      forall i | 0 <= i < |r|
        ensures ':' !in r[i].0
        ensures exists j :: 0 <= j < |tags| && r[i] == (CleanKey(tags[j].0), tags[j].1)
      {
        PutSource(prev, k, v, i);
        if r[i] != (k, v) {
          var m :| 0 <= m < |prev| && r[i] == prev[m];
          var j :| 0 <= j < n && prev[m] == (CleanKey(tags[..n][j].0), tags[..n][j].1);
          assert tags[..n][j] == tags[j];
        }
      }
    }
  }

  /** Every entry after `d[k] = v` is `(k, v)` or an entry of `d`. */
  lemma {:induction false} PutSource<K, V>(d: Dict<K, V>, k: K, v: V, i: nat)
    requires i < |Put(d, k, v)|
    ensures Put(d, k, v)[i] == (k, v) || exists m :: 0 <= m < |d| && Put(d, k, v)[i] == d[m]
  {
    if d != [] && d[0].0 != k && i > 0 {
      PutSource(d[1..], k, v, i - 1);
      if Put(d[1..], k, v)[i - 1] != (k, v) {
        var m :| 0 <= m < |d[1..]| && Put(d[1..], k, v)[i - 1] == d[1..][m];
        assert d[1..][m] == d[m + 1];
      }
    } else if d != [] && d[0].0 == k && i > 0 {
      assert Put(d, k, v)[i] == d[i];
    }
  }

  /** On a dictionary whose keys are distinct and free of ':', cleaning
      changes nothing. */
  lemma {:induction false} CleanedClean<V>(tags: Dict<string, V>)
    requires DistinctKeys(tags)
    requires forall i :: 0 <= i < |tags| ==> ':' !in tags[i].0
    ensures Cleaned(tags) == tags
  {
    if tags != [] {
      var n := |tags| - 1;
      var init, last := tags[..n], tags[n];
      assert tags == init + [last];
      InitClean(tags);
      CleanedClean(init);
      CleanedSnoc(init, last.0, last.1);
    }
  }

  lemma InitClean<V>(tags: Dict<string, V>)
    requires tags != [] && DistinctKeys(tags)
    requires forall i :: 0 <= i < |tags| ==> ':' !in tags[i].0
    ensures var init := tags[..|tags| - 1];
      && DistinctKeys(init)
      && (forall i :: 0 <= i < |init| ==> ':' !in init[i].0)
      && !Has(init, tags[|tags| - 1].0)
      && ':' !in tags[|tags| - 1].0
  {
  }

  lemma CleanedSnoc<V>(init: Dict<string, V>, k: string, v: V)
    requires Cleaned(init) == init && !Has(init, k) && ':' !in k
    ensures Cleaned(init + [(k, v)]) == init + [(k, v)]
  {
    assert (init + [(k, v)])[..|init|] == init;
  }

  /** `clean_tags` is idempotent. */
  lemma CleanedIdempotent<V>(tags: Dict<string, V>)
    ensures Cleaned(Cleaned(tags)) == Cleaned(tags)
  {
    CleanedShape(tags);
    CleanedClean(Cleaned(tags));
  }

  /** The value `clean_tags` keeps under `k` is that of the last input
      entry whose cleaned key is `k`. */
  function LastCleanedTo<V>(tags: Dict<string, V>, k: string): Option<V> {
    if tags == [] then None
    else if CleanKey(tags[|tags| - 1].0) == k then Some(tags[|tags| - 1].1)
    else LastCleanedTo(tags[..|tags| - 1], k)
  }

  lemma {:induction false} CleanedGet<V>(tags: Dict<string, V>, k: string)
    ensures Get(Cleaned(tags), k) == LastCleanedTo(tags, k)
  {
    if tags != [] {
      var n := |tags| - 1;
      CleanedGet(tags[..n], k);
      PutGet(Cleaned(tags[..n]), CleanKey(tags[n].0), tags[n].1, k);
    }
  }

  /** A key without ':' keeps its value exactly when no later key cleans to
      the same string; in particular it keeps it when it is the only key
      that cleans to itself. */
  lemma CleanedKeepsPlainKey<V>(tags: Dict<string, V>, i: nat)
    requires DistinctKeys(tags) && i < |tags| && ':' !in tags[i].0
    requires forall j :: i < j < |tags| ==> CleanKey(tags[j].0) != tags[i].0
    ensures Get(Cleaned(tags), tags[i].0) == Some(tags[i].1)
  {
    CleanedGet(tags, tags[i].0);
    LastAfter(tags, tags[i].0, i);
  }

  lemma {:induction false} LastAfter<V>(tags: Dict<string, V>, k: string, i: nat)
    requires i < |tags| && CleanKey(tags[i].0) == k
    requires forall j :: i < j < |tags| ==> CleanKey(tags[j].0) != k
    ensures LastCleanedTo(tags, k) == Some(tags[i].1)
  {
    if i < |tags| - 1 {
      var n := |tags| - 1;
      assert tags[..n][i] == tags[i];
      LastAfter(tags[..n], k, i);
    }
  }

  /** A later key that cleans to a plain key overwrites its value. */
  lemma CleanedCollision()
    ensures Cleaned([("ab", 1), ("a:b", 2)]) == [("ab", 2)]
  {
    assert CleanKey("a:b") == "ab" by {
      assert RemoveChar("b", ':') == "b";
      assert RemoveChar(":b", ':') == "b";
    }
    assert [("ab", 1), ("a:b", 2)][..1] == [("ab", 1)];
  }

  /** The text the csv module writes for a dictionary value, and for a
      missing key (`restval=''`). */
  function Cell(v: Option<Val>): string {
    match v
    case None => ""
    case Some(Text(s)) => s
    case Some(Id(n)) => IntToString(n)
  }

  /** One `DictWriter.writerow` record: the row's values in column order,
      an empty field for a missing column, keys outside the columns
      ignored (`extrasaction='ignore'`). */
  function Project(columns: seq<string>, row: Dict<string, Val>): (r: seq<string>)
    ensures |r| == |columns|
    ensures forall j :: 0 <= j < |columns| ==> r[j] == Cell(Get(row, columns[j]))
  {
    seq(|columns|, j requires 0 <= j < |columns| => Cell(Get(row, columns[j])))
  }

  /** Two rows that agree on the columns give the same record: keys outside
      the columns are ignored. */
  lemma ProjectIgnoresExtra(columns: seq<string>, a: Dict<string, Val>, b: Dict<string, Val>)
    requires forall j :: 0 <= j < |columns| ==> Get(a, columns[j]) == Get(b, columns[j])
    ensures Project(columns, a) == Project(columns, b)
  {
  }

  /** `WriteDictToCSV`: the header record, then one record per entry of the
      data in iteration order (each entry given by its tag dictionary). */
  method WriteDictToCsv(columns: seq<string>, data: seq<Dict<string, Val>>)
    returns (records: seq<seq<string>>)
    ensures |records| == |data| + 1 && records[0] == columns
    ensures forall i :: 0 <= i < |data| ==> records[i + 1] == Project(columns, data[i])
  {
    records := [columns];
    var i := 0;
    while i < |data|
      invariant 0 <= i <= |data|
      invariant |records| == i + 1 && records[0] == columns
      invariant forall j :: 0 <= j < i ==> records[j + 1] == Project(columns, data[j])
    {
      records := records + [Project(columns, data[i])];
      i := i + 1;
    }
  }
}
