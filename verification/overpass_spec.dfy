/** What `CaiOsmData` of caiosm/data_from_overpass.py computes, as
    functions: the bounding box it keeps, the Overpass request texts, the
    CAI route tags it extracts from a JSON answer, the MediaWiki table it
    makes from a CSV answer, and the output formats it accepts. */
module OverpassSpec {
  import opened Values
  import opened PyDict
  import opened Strings
  import Functions

  // ---------------------------------------------------------------------
  // Bounding box

  /** The bounding box kept on construction: the argument itself, or its
      axis swap when it is given as `XMIN,YMIN,XMAX,YMAX`; swapping a
      missing box calls a method on None. */
  function InitBbox(bbox: Option<string>, inverted: bool): (r: Result<Option<string>>)
    ensures !inverted ==> r == Ok(bbox)
    ensures inverted ==> (r.Ok? <==> bbox.Some? && |Split(bbox.value, ",")| >= 4)
    ensures inverted && bbox.None? ==> r == Err(AttributeError)
    ensures inverted && bbox.Some? && r.Err? ==> r == Err(IndexError)
  {
    if !inverted then Ok(bbox)
    else if bbox.None? then Err(AttributeError)
    else
      match Functions.InvertBbox(bbox.value)
      case Ok(b) => Ok(Some(b))
      case Err(e) => Err(e)
  }

  /** A four-field box given in the inverted order is kept in the Overpass
      order: swapping the kept box back gives the argument. */
  lemma InitBboxRoundTrip(bbox: string)
    requires |Split(bbox, ",")| == 4
    ensures InitBbox(Some(bbox), true).Ok? && InitBbox(Some(bbox), true).value.Some?
    ensures Functions.InvertBbox(InitBbox(Some(bbox), true).value.value) == Ok(bbox)
  {
    Functions.InvertBboxTwice(bbox);
  }

  // ---------------------------------------------------------------------
  // Request texts

  /** The query each subclass installs: routes, CAI offices, routes with a
      `source:ref`, and routes with one given `source:ref` code. */
  datatype QueryKind = Route | Office | SourceRef | RouteSourceRef(code: string)

  /** The bounding clause of a query. */
  function Bound(slot: string): string {
    "(" + slot + ");"
  }

  /** The office query repeats this block for each element type and each
      of the two operators. */
  function OfficeBlock(elem: string, operator: string, slot: string): string {
    "  " + elem + "\n    [\"office\"=\"association\"]\n    [\"operator\"=\"" + operator + "\"]\n    " + Bound(slot) + "\n"
  }

  const CaiOperator := "Club Alpino Italiano"
  const SatOperator := "Societ\U{E0} degli Alpinisti Tridentini"

  const RelationHead := "\nrelation\n  [\"route\"=\"hiking\"]\n  "

  /** The subclass query with `netw` and `bbox` filled in. */
  function QueryText(kind: QueryKind, netw: string, slot: string): string {
    match kind
    case Route =>
      RelationHead + netw + "\n  [\"cai_scale\"]\n  " + Bound(slot) + "\n"
    case Office =>
      "\n(\n" + OfficeBlock("node", CaiOperator, slot) + OfficeBlock("way", CaiOperator, slot)
      + OfficeBlock("relation", CaiOperator, slot) + OfficeBlock("node", SatOperator, slot)
      + OfficeBlock("way", SatOperator, slot) + OfficeBlock("relation", SatOperator, slot) + ");\n"
    case SourceRef =>
      RelationHead + netw + "\n  [\"cai_scale\"]\n  [\"source:ref\"]\n  " + Bound(slot) + "\n"
    case RouteSourceRef(code) =>
      RelationHead + netw + "\n  [\"cai_scale\"]\n" + "[\"source:ref\"=\"" + code + "\"]" + ";"
  }

  /** The area statement put before the query when an area is named. */
  function AreaLine(area: string): string {
    "area[\"name\"=\"" + area + "\"]->.a;"
  }

  /** The two slots the area and the bounding box fill in a request. */
  datatype Scope = Scope(areaLine: string, slot: string)

  /** An area wins over a bounding box; with neither, both slots are empty. */
  function ScopeOf(area: Option<string>, bbox: Option<string>): Scope {
    if Truthy(area) then Scope(AreaLine(area.value), "area.a")
    else if Truthy(bbox) then Scope("", bbox.value)
    else Scope("", "")
  }

  /** The query of a request, its network filter checked. */
  function Query(kind: QueryKind, area: Option<string>, bbox: Option<string>, network: string): string {
    QueryText(kind, Functions.CheckNetwork(network), ScopeOf(area, bbox).slot)
  }

  /** What every request carries between its output header and its output
      statements: the area line and the query. */
  function Body(kind: QueryKind, area: Option<string>, bbox: Option<string>, network: string): string {
    ScopeOf(area, bbox).areaLine + "\n" + Query(kind, area, bbox, network)
  }

  function BoolText(b: bool): string {
    if b then "true" else "false"
  }

  function CsvHead(cols: string, csvheader: bool, sep: string): string {
    "[out:csv(" + cols + ";" + BoolText(csvheader) + ";\"" + sep + "\")]\n;\n"
  }

  /** `get_data_csv`'s request. */
  function CsvRequest(kind: QueryKind, area: Option<string>, bbox: Option<string>, network: string,
                      cols: string, csvheader: bool, sep: string): string {
    CsvHead(cols, csvheader, sep) + Body(kind, area, bbox, network) + "\nout;\n"
  }

  /** `get_data_osm`'s request. */
  function OsmRequest(kind: QueryKind, area: Option<string>, bbox: Option<string>, network: string): string {
    "[out:xml]\n;\n" + Body(kind, area, bbox, network) + "\nout;\n>;\nout skel qt;\nout;"
  }

  /** `get_data_json`'s request. */
  function JsonRequest(kind: QueryKind, area: Option<string>, bbox: Option<string>, network: string): string {
    "[out:json]\n;\n" + Body(kind, area, bbox, network) + "\nout;\n>;\nout skel qt;"
  }

  /** The three requests differ only in their output statements: each one
      carries the same area line and query. */
  lemma BodyInRequests(kind: QueryKind, area: Option<string>, bbox: Option<string>, network: string,
                       cols: string, csvheader: bool, sep: string)
    ensures var q := Body(kind, area, bbox, network);
      Occurs(q, CsvRequest(kind, area, bbox, network, cols, csvheader, sep))
      && Occurs(q, OsmRequest(kind, area, bbox, network)) && Occurs(q, JsonRequest(kind, area, bbox, network))
  {
    var q := Body(kind, area, bbox, network);
    OccursMiddle(q, CsvHead(cols, csvheader, sep), "\nout;\n");
    OccursMiddle(q, "[out:xml]\n;\n", "\nout;\n>;\nout skel qt;\nout;");
    OccursMiddle(q, "[out:json]\n;\n", "\nout;\n>;\nout skel qt;");
  }

  /** A named area takes precedence: the box plays no part, the area is
      declared and the query is bounded by it. */
  lemma AreaPrecedence(kind: QueryKind, area: Option<string>, b1: Option<string>, b2: Option<string>, network: string)
    requires Truthy(area)
    ensures Body(kind, area, b1, network) == Body(kind, area, b2, network)
    ensures Occurs(AreaLine(area.value), Body(kind, area, b1, network))
    ensures !kind.RouteSourceRef? ==> Occurs(Bound("area.a"), Query(kind, area, b1, network))
  {
    OccursPrefix(AreaLine(area.value), "\n");
    OccursRight(AreaLine(area.value), AreaLine(area.value) + "\n", Query(kind, area, b1, network));
    if !kind.RouteSourceRef? {
      SlotInQuery(kind, Functions.CheckNetwork(network), "area.a");
    }
  }

  /** Without an area, no area is declared, and the box (or an empty slot
      when there is none) bounds the query. */
  lemma BboxScope(kind: QueryKind, area: Option<string>, bbox: Option<string>, network: string)
    requires !Truthy(area)
    ensures ScopeOf(area, bbox).areaLine == ""
    ensures Truthy(bbox) && !kind.RouteSourceRef? ==> Occurs(Bound(bbox.value), Query(kind, area, bbox, network))
    ensures !Truthy(bbox) && !kind.RouteSourceRef? ==> Occurs(Bound(""), Query(kind, area, bbox, network))
  {
    if !kind.RouteSourceRef? {
      SlotInQuery(kind, Functions.CheckNetwork(network), ScopeOf(area, bbox).slot);
    }
  }

  /** Every query but the single-code one is bounded by its slot. */
  lemma SlotInQuery(kind: QueryKind, netw: string, slot: string)
    requires !kind.RouteSourceRef?
    ensures Occurs(Bound(slot), QueryText(kind, netw, slot))
  {
    var p := Bound(slot);
    match kind
    case Route =>
      OccursMiddle(p, RelationHead + netw + "\n  [\"cai_scale\"]\n  ", "\n");
    case SourceRef =>
      OccursMiddle(p, RelationHead + netw + "\n  [\"cai_scale\"]\n  [\"source:ref\"]\n  ", "\n");
    case Office =>
      var b1 := OfficeBlock("node", CaiOperator, slot);
      OccursMiddle(p, "  " + "node" + "\n    [\"office\"=\"association\"]\n    [\"operator\"=\"" + CaiOperator + "\"]\n    ", "\n");
      OccursLeft(p, "\n(\n", b1);
      var s := "\n(\n" + b1;
      OccursRight(p, s, OfficeBlock("way", CaiOperator, slot));
      s := s + OfficeBlock("way", CaiOperator, slot);
      OccursRight(p, s, OfficeBlock("relation", CaiOperator, slot));
      s := s + OfficeBlock("relation", CaiOperator, slot);
      OccursRight(p, s, OfficeBlock("node", SatOperator, slot));
      s := s + OfficeBlock("node", SatOperator, slot);
      OccursRight(p, s, OfficeBlock("way", SatOperator, slot));
      s := s + OfficeBlock("way", SatOperator, slot);
      OccursRight(p, s, OfficeBlock("relation", SatOperator, slot));
      s := s + OfficeBlock("relation", SatOperator, slot);
      OccursRight(p, s, ");\n");
  }

  /** The route queries carry the network filter; the office query has no
      network slot, so the network does not change it. */
  lemma NetworkFilter(kind: QueryKind, area: Option<string>, bbox: Option<string>, n1: string, n2: string)
    ensures !kind.Office? ==> Occurs(Functions.CheckNetwork(n1), Query(kind, area, bbox, n1))
    ensures kind.Office? ==> Query(kind, area, bbox, n1) == Query(kind, area, bbox, n2)
  {
    var f := Functions.CheckNetwork(n1);
    var slot := ScopeOf(area, bbox).slot;
    match kind
    case Route =>
      var s := RelationHead + f + "\n  [\"cai_scale\"]\n  ";
      OccursMiddle(f, RelationHead, "\n  [\"cai_scale\"]\n  ");
      OccursRight(f, s, Bound(slot));
      OccursRight(f, s + Bound(slot), "\n");
    case SourceRef =>
      var s := RelationHead + f + "\n  [\"cai_scale\"]\n  [\"source:ref\"]\n  ";
      OccursMiddle(f, RelationHead, "\n  [\"cai_scale\"]\n  [\"source:ref\"]\n  ");
      OccursRight(f, s, Bound(slot));
      OccursRight(f, s + Bound(slot), "\n");
    case RouteSourceRef(code) =>
      var s := RelationHead + f + "\n  [\"cai_scale\"]\n";
      OccursMiddle(f, RelationHead, "\n  [\"cai_scale\"]\n");
      OccursRight(f, s, "[\"source:ref\"=\"");
      s := s + "[\"source:ref\"=\"";
      OccursRight(f, s, code);
      s := s + code;
      OccursRight(f, s, "\"]");
      s := s + "\"]";
      OccursRight(f, s, ";");
    case Office =>
  }

  // ---------------------------------------------------------------------
  // Route tags from a JSON answer

  /** An element of the JSON answer: its type, its id and its tags (absent
      on untagged elements). */
  datatype Element = Element(kind: string, id: int, tags: Option<Dict<string, Val>>)

  /** A relation element whose tags can be inspected: it has tags and a
      `type` tag. */
  predicate Readable(e: Element) {
    e.kind == "relation" ==> e.tags.Some? && Has(e.tags.value, "type")
  }

  /** A CAI route: a relation of type `route` with a `cai_scale` tag. */
  predicate CaiRoute(e: Element) {
    e.kind == "relation" && e.tags.Some? && Get(e.tags.value, "type") == Some(Text("route"))
    && Has(e.tags.value, "cai_scale")
  }

  /** The tags `get_tags_json` returns for a CAI route: its tags with `id`. */
  function RouteTags(e: Element): Dict<string, Val>
    requires e.tags.Some?
  {
    Put(e.tags.value, "id", Id(e.id))
  }

  /** The tags of the CAI routes among `elems`, in order; a relation
      without tags or without a `type` tag raises KeyError. */
  function TagsOf(elems: seq<Element>): Result<seq<Dict<string, Val>>> {
    if elems == [] then Ok([])
    else
      match TagsOf(elems[..|elems| - 1])
      case Err(e) => Err(e)
      case Ok(ts) =>
        var e := elems[|elems| - 1];
        if e.kind != "relation" then Ok(ts)
        else if e.tags.None? || !Has(e.tags.value, "type") then Err(KeyError)
        else if CaiRoute(e) then Ok(ts + [RouteTags(e)])
        else Ok(ts)
  }

  /** Once a prefix raised, every longer prefix raises the same way. */
  lemma {:induction false} TagsOfFailed(elems: seq<Element>, i: nat, n: nat)
    requires i <= n <= |elems| && TagsOf(elems[..i]).Err?
    ensures TagsOf(elems[..n]) == TagsOf(elems[..i])
    decreases n
  {
    if i < n {
      TagsOfFailed(elems, i, n - 1);
      assert elems[..n][..n - 1] == elems[..n - 1];
    }
  }

  /** The extraction succeeds exactly when every relation is readable, and
      then returns the tags (with `id`) of exactly the CAI routes;
      otherwise it raises KeyError. */
  lemma TagsOfSpec(elems: seq<Element>)
    ensures TagsOf(elems).Ok? <==> forall i :: 0 <= i < |elems| ==> Readable(elems[i])
    ensures TagsOf(elems).Err? ==> TagsOf(elems).error == KeyError
    ensures TagsOf(elems).Ok? ==>
              (forall t :: t in TagsOf(elems).value <==>
                 exists i :: 0 <= i < |elems| && CaiRoute(elems[i]) && t == RouteTags(elems[i]))
  {
    TagsOfOk(elems);
    if TagsOf(elems).Ok? {
      TagsOfMembers(elems);
    }
  }

  lemma {:induction false} TagsOfOk(elems: seq<Element>)
    ensures TagsOf(elems).Ok? <==> forall i :: 0 <= i < |elems| ==> Readable(elems[i])
    ensures TagsOf(elems).Err? ==> TagsOf(elems).error == KeyError
  {
    if elems != [] {
      var n := |elems| - 1;
      TagsOfOk(elems[..n]);
      assert forall i :: 0 <= i < n ==> elems[..n][i] == elems[i];
    }
  }

  ghost predicate TagsOfRoutes(elems: seq<Element>, ts: seq<Dict<string, Val>>) {
    forall t :: t in ts <==> exists i :: 0 <= i < |elems| && CaiRoute(elems[i]) && t == RouteTags(elems[i])
  }

  lemma {:induction false} TagsOfMembers(elems: seq<Element>)
    requires TagsOf(elems).Ok?
    ensures TagsOfRoutes(elems, TagsOf(elems).value)
  {
    if elems != [] {
      var n := |elems| - 1;
      TagsOfMembers(elems[..n]);
      TagsOfMembersStep(elems, TagsOf(elems[..n]).value, TagsOf(elems).value);
    }
  }

  lemma TagsOfMembersStep(elems: seq<Element>, ts: seq<Dict<string, Val>>, ts': seq<Dict<string, Val>>)
    requires elems != [] && TagsOfRoutes(elems[..|elems| - 1], ts)
    requires var e := elems[|elems| - 1]; ts' == if CaiRoute(e) then ts + [RouteTags(e)] else ts
    ensures TagsOfRoutes(elems, ts')
  {
    forall t
      ensures t in ts' <==> exists i :: 0 <= i < |elems| && CaiRoute(elems[i]) && t == RouteTags(elems[i])
    {
      if t in ts' {
        TagsOfFrom(elems, ts, ts', t);
      }
      if exists i :: 0 <= i < |elems| && CaiRoute(elems[i]) && t == RouteTags(elems[i]) {
        var i :| 0 <= i < |elems| && CaiRoute(elems[i]) && t == RouteTags(elems[i]);
        TagsOfTo(elems, ts, ts', i);
      }
    }
  }

  lemma TagsOfFrom(elems: seq<Element>, ts: seq<Dict<string, Val>>, ts': seq<Dict<string, Val>>, t: Dict<string, Val>)
    requires elems != [] && TagsOfRoutes(elems[..|elems| - 1], ts)
    requires var e := elems[|elems| - 1]; ts' == if CaiRoute(e) then ts + [RouteTags(e)] else ts
    requires t in ts'
    ensures exists i :: 0 <= i < |elems| && CaiRoute(elems[i]) && t == RouteTags(elems[i])
  {
    var n := |elems| - 1;
    if t in ts {
      var i :| 0 <= i < n && CaiRoute(elems[..n][i]) && t == RouteTags(elems[..n][i]);
      assert elems[..n][i] == elems[i];
    } else {
      assert CaiRoute(elems[n]) && t == RouteTags(elems[n]);
    }
  }

  lemma TagsOfTo(elems: seq<Element>, ts: seq<Dict<string, Val>>, ts': seq<Dict<string, Val>>, i: nat)
    requires elems != [] && TagsOfRoutes(elems[..|elems| - 1], ts)
    requires var e := elems[|elems| - 1]; ts' == if CaiRoute(e) then ts + [RouteTags(e)] else ts
    requires i < |elems| && CaiRoute(elems[i])
    ensures RouteTags(elems[i]) in ts'
  {
    var n := |elems| - 1;
    if i < n {
      assert elems[..n][i] == elems[i];
      assert RouteTags(elems[i]) in ts;
    }
  }

  /** Every returned dictionary is the tags of a route: type `route`, a
      `cai_scale` tag and the element id under `id`. */
  lemma RouteTagsShape(e: Element)
    requires CaiRoute(e)
    ensures Get(RouteTags(e), "type") == Some(Text("route"))
    ensures Has(RouteTags(e), "cai_scale")
    ensures Get(RouteTags(e), "id") == Some(Id(e.id))
  {
    PutGet(e.tags.value, "id", Id(e.id), "type");
    PutGet(e.tags.value, "id", Id(e.id), "cai_scale");
    PutGet(e.tags.value, "id", Id(e.id), "id");
  }

  // ---------------------------------------------------------------------
  // Wiki table from a CSV answer

  /** The cell `wiki_table` makes of the field at position `x`: the field
      stripped, and the third one (the relation id) as a browse link. */
  function WikiCell(x: nat, field: string): string {
    if x == 2 then "{{BrowseRelation|" + Strip(field) + "}}" else Strip(field)
  }

  /** The cells of one line's fields, in order. */
  function WikiCells(fields: seq<string>): (r: seq<string>)
    ensures |r| == |fields|
  {
    if fields == [] then []
    else WikiCells(fields[..|fields| - 1]) + [WikiCell(|fields| - 1, fields[|fields| - 1])]
  }

  lemma {:induction false} WikiCellsAt(fields: seq<string>, i: nat)
    requires i < |fields|
    ensures WikiCells(fields)[i] == WikiCell(i, fields[i])
  {
    var n := |fields| - 1;
    if i < n {
      WikiCellsAt(fields[..n], i);
    }
  }

  /** The table row of one line: its cells, then two empty cells. */
  function WikiRow(line: string, sep: string): seq<string>
    requires |sep| > 0
  {
    WikiCells(Split(line, sep)) + ["", ""]
  }

  /** A row has a cell per field plus two empty ones; every cell is its
      field stripped, the third wrapped as a browse link. */
  lemma WikiRowSpec(line: string, sep: string)
    requires |sep| > 0
    ensures var fields := Split(line, sep); var row := WikiRow(line, sep);
      |row| == |fields| + 2 && row[|row| - 2] == "" && row[|row| - 1] == ""
      && (forall i :: 0 <= i < |fields| && i != 2 ==> row[i] == Strip(fields[i]))
      && (|fields| > 2 ==> row[2] == "{{BrowseRelation|" + Strip(fields[2]) + "}}")
  {
    var fields := Split(line, sep);
    forall i | 0 <= i < |fields| ensures WikiRow(line, sep)[i] == WikiCell(i, fields[i]) {
      WikiCellsAt(fields, i);
    }
  }

  /** The rows of the lines, in order. */
  function TableRows(lines: seq<string>, sep: string): (r: seq<seq<string>>)
    requires |sep| > 0 || lines == []
    ensures |r| == |lines|
  {
    if lines == [] then []
    else TableRows(lines[..|lines| - 1], sep) + [WikiRow(lines[|lines| - 1], sep)]
  }

  /** The sort key: a row's first cell. */
  function Key(row: seq<string>): string {
    if row == [] then "" else row[0]
  }

  predicate SortedRows(t: seq<seq<string>>) {
    forall i, j :: 0 <= i < j < |t| ==> LexLe(Key(t[i]), Key(t[j]))
  }

  /** `x` placed after every row of the sorted `t` whose key is not
      greater, so rows with equal keys keep their order. */
  function Insert(t: seq<seq<string>>, x: seq<string>): (r: seq<seq<string>>)
    ensures |r| == |t| + 1
  {
    if t == [] || LexLe(Key(t[|t| - 1]), Key(x)) then t + [x]
    else Insert(t[..|t| - 1], x) + [t[|t| - 1]]
  }

  /** `sorted(table, key=lambda row: row[0])`: a stable sort by the first
      cell, as insertion sort. */
  function SortRows(rows: seq<seq<string>>): (r: seq<seq<string>>)
    ensures |r| == |rows|
  {
    if rows == [] then [] else Insert(SortRows(rows[..|rows| - 1]), rows[|rows| - 1])
  }

  lemma {:induction false} InsertPerm(t: seq<seq<string>>, x: seq<string>)
    ensures multiset(Insert(t, x)) == multiset(t) + multiset{x}
    decreases |t|
  {
    if !(t == [] || LexLe(Key(t[|t| - 1]), Key(x))) {
      var n := |t| - 1;
      InsertPerm(t[..n], x);
      assert t == t[..n] + [t[n]];
    }
  }

  lemma {:induction false} InsertSorted(t: seq<seq<string>>, x: seq<string>)
    requires SortedRows(t)
    ensures SortedRows(Insert(t, x))
    decreases |t|
  {
    if t == [] || LexLe(Key(t[|t| - 1]), Key(x)) {
      forall k | 0 <= k < |t| ensures LexLe(Key(t[k]), Key(x)) {
        if k < |t| - 1 {
          LexLeTrans(Key(t[k]), Key(t[|t| - 1]), Key(x));
        }
      }
      SortedSnoc(t, x);
    } else {
      var n := |t| - 1;
      InsertSorted(t[..n], x);
      InsertPerm(t[..n], x);
      LexLeTotal(Key(t[n]), Key(x));
      InsertBelowLast(t, x);
      SortedSnoc(Insert(t[..n], x), t[n]);
    }
  }

  /** A row whose key is not below any key of a sorted table can follow it. */
  lemma SortedSnoc(t: seq<seq<string>>, x: seq<string>)
    requires SortedRows(t)
    requires forall k :: 0 <= k < |t| ==> LexLe(Key(t[k]), Key(x))
    ensures SortedRows(t + [x])
  {
    var r := t + [x];
    forall i, j | 0 <= i < j < |r| ensures LexLe(Key(r[i]), Key(r[j])) {
      assert r[i] == t[i];
      if j < |t| {
        assert r[j] == t[j];
      }
    }
  }

  /** Inserting a row keyed before the last one of a sorted table puts
      only rows keyed no later than that last one before it. */
  lemma InsertBelowLast(t: seq<seq<string>>, x: seq<string>)
    requires SortedRows(t) && t != []
    requires LexLe(Key(x), Key(t[|t| - 1]))
    requires multiset(Insert(t[..|t| - 1], x)) == multiset(t[..|t| - 1]) + multiset{x}
    ensures var u := Insert(t[..|t| - 1], x);
      forall k :: 0 <= k < |u| ==> LexLe(Key(u[k]), Key(t[|t| - 1]))
  {
    var n := |t| - 1;
    var u := Insert(t[..n], x);
    forall k | 0 <= k < |u| ensures LexLe(Key(u[k]), Key(t[n])) {
      assert u[k] in multiset(u);
      if u[k] != x {
        assert u[k] in multiset(t[..n]);
        var m :| 0 <= m < n && t[..n][m] == u[k];
        assert t[m] == u[k];
      }
    }
  }

  /** The sort orders the rows by their first cell and is a permutation. */
  lemma {:induction false} SortRowsSpec(rows: seq<seq<string>>)
    ensures SortedRows(SortRows(rows))
    ensures multiset(SortRows(rows)) == multiset(rows)
  {
    if rows != [] {
      var n := |rows| - 1;
      SortRowsSpec(rows[..n]);
      InsertSorted(SortRows(rows[..n]), rows[n]);
      InsertPerm(SortRows(rows[..n]), rows[n]);
      assert rows == rows[..n] + [rows[n]];
    }
  }

  /** The table opening, a row separator and the five column headings. */
  const WikiHeader := "{| class=\"wikitable sortable mw-collapsible mw-collapsed\" \n" + "|-\n"
                      + "!Ref\n!Nome\n!Link route\n!%completamento\n!note\n"
  const WikiFooter := "|-\n|}\n"

  /** The cells of a row, each after the cell delimiter. */
  function Delimited(row: seq<string>): (r: seq<string>)
    ensures |r| == |row| && forall k :: 0 <= k < |row| ==> r[k] == "|" + row[k]
  {
    seq(|row|, k requires 0 <= k < |row| => "|" + row[k])
  }

  /** The wiki text of one row: a row separator, then a line per cell. */
  function RowBlock(row: seq<string>): string {
    "|-\n" + Join(Delimited(row), "\n") + "\n"
  }

  function Blocks(rows: seq<seq<string>>): string {
    if rows == [] then "" else Blocks(rows[..|rows| - 1]) + RowBlock(rows[|rows| - 1])
  }

  /** The rows printed: all sorted rows, less the first one when the CSV
      header was requested. */
  function Shown(sorted: seq<seq<string>>, csvheader: bool): seq<seq<string>> {
    if csvheader && sorted != [] then sorted[1..] else sorted
  }

  /** `wiki_table` on the CSV answer `data`: ValueError when there is a
      line to split and the separator is empty. */
  function WikiText(data: string, sep: string, csvheader: bool): Result<string> {
    var lines := SplitLines(data);
    if lines != [] && sep == "" then Err(ValueError)
    else Ok(WikiHeader + Blocks(Shown(SortRows(TableRows(lines, sep)), csvheader)) + WikiFooter)
  }

  /** The first row of a sorted table has a least key, and the rest stays
      sorted. */
  lemma SortedFirst(t: seq<seq<string>>)
    requires SortedRows(t) && t != []
    ensures SortedRows(t[1..])
    ensures forall k :: 0 <= k < |t| ==> LexLe(Key(t[0]), Key(t[k]))
  {
    LexLeTotal(Key(t[0]), Key(t[0]));
    forall i, j | 0 <= i < j < |t[1..]| ensures LexLe(Key(t[1..][i]), Key(t[1..][j])) {
      assert t[1..][i] == t[i + 1] && t[1..][j] == t[j + 1];
    }
  }

  /** As written, the printed rows are sorted, and with the header flag set
      the row left out is one with the least first cell, whatever line it
      came from; all other rows are printed. */
  lemma WikiShownRows(rows: seq<seq<string>>, csvheader: bool)
    ensures var sorted := SortRows(rows); var shown := Shown(sorted, csvheader);
      SortedRows(shown)
      && (csvheader && rows != [] ==>
            multiset(shown) + multiset{sorted[0]} == multiset(rows)
            && forall k :: 0 <= k < |rows| ==> LexLe(Key(sorted[0]), Key(rows[k])))
      && (!csvheader || rows == [] ==> multiset(shown) == multiset(rows))
  {
    SortRowsSpec(rows);
    if csvheader && rows != [] {
      FirstLeftOut(rows, SortRows(rows));
    }
  }

  /** Leaving out the first row of a sorted permutation of `rows` leaves
      out a row with the least key and keeps all the others, sorted. */
  lemma FirstLeftOut(rows: seq<seq<string>>, sorted: seq<seq<string>>)
    requires sorted != [] && SortedRows(sorted) && multiset(sorted) == multiset(rows)
    ensures SortedRows(sorted[1..])
    ensures multiset(sorted[1..]) + multiset{sorted[0]} == multiset(rows)
    ensures forall k :: 0 <= k < |rows| ==> LexLe(Key(sorted[0]), Key(rows[k]))
  {
    SortedFirst(sorted);
    HeadTail(sorted);
    forall k | 0 <= k < |rows| ensures LexLe(Key(sorted[0]), Key(rows[k])) {
      MemberOfPerm(rows, sorted, k);
    }
  }

  lemma HeadTail<T>(s: seq<T>)
    requires s != []
    ensures multiset(s) == multiset{s[0]} + multiset(s[1..])
  {
    assert s == [s[0]] + s[1..];
  }

  /** A row of a table is a row of any permutation of it. */
  lemma MemberOfPerm(rows: seq<seq<string>>, perm: seq<seq<string>>, k: nat)
    requires multiset(perm) == multiset(rows) && k < |rows|
    ensures exists m :: 0 <= m < |perm| && perm[m] == rows[k]
  {
    assert rows[k] in multiset(rows);
    assert rows[k] in perm;
  }

  /** A line of three plain fields makes the row of those fields, the third
      as a browse link, and two empty cells. */
  lemma RowOf(a: string, b: string, c: string)
    requires '|' !in a && '|' !in b && '|' !in c
    requires Strip(a) == a && Strip(b) == b && Strip(c) == c
    ensures WikiRow(a + "|" + b + "|" + c, "|") == [a, b, "{{BrowseRelation|" + c + "}}", "", ""]
  {
    assert [a, b, c][..2] == [a, b];
    assert [a, b][..1] == [a];
    assert Join([a], "|") == a;
    assert Join([a, b], "|") == a + "|" + b;
    assert Join([a, b, c], "|") == a + "|" + b + "|" + c;
    SplitJoin([a, b, c], '|');
    var f := [a, b, c];
    WikiCellsAt(f, 0);
    WikiCellsAt(f, 1);
    WikiCellsAt(f, 2);
    assert WikiCells(f) == [a, b, "{{BrowseRelation|" + c + "}}"];
  }

  lemma ExampleLastLine()
    ensures SplitLines("1|A|10") == ["1|A|10"]
  {
    SplitLinesCons("1|A|10", "");
  }

  lemma ExampleFirstLine()
    ensures SplitLines("ref|name|@id" + "\n" + "1|A|10") == ["ref|name|@id"] + SplitLines("1|A|10")
  {
    SplitLinesCons("ref|name|@id", "1|A|10");
  }

  lemma ExampleLines()
    ensures SplitLines("ref|name|@id\n1|A|10") == ["ref|name|@id", "1|A|10"]
  {
    assert "ref|name|@id\n1|A|10" == "ref|name|@id" + "\n" + "1|A|10";
    ExampleLastLine();
    ExampleFirstLine();
  }

  lemma ExampleRow(line: string, a: string, b: string, c: string)
    requires line == a + "|" + b + "|" + c
    requires '|' !in a && '|' !in b && '|' !in c
    requires Strip(a) == a && Strip(b) == b && Strip(c) == c
    ensures WikiRow(line, "|") == [a, b, "{{BrowseRelation|" + c + "}}", "", ""]
  {
    RowOf(a, b, c);
  }

  lemma ExampleHeaderRow(line: string)
    requires line == "ref|name|@id"
    ensures WikiRow(line, "|") == ["ref", "name", "{{BrowseRelation|@id}}", "", ""]
  {
    assert Strip("ref") == "ref" && Strip("name") == "name" && Strip("@id") == "@id";
    ExampleRow(line, "ref", "name", "@id");
    assert "{{BrowseRelation|" + "@id" + "}}" == "{{BrowseRelation|@id}}";
  }

  lemma ExampleRouteRow(line: string)
    requires line == "1|A|10"
    ensures WikiRow(line, "|") == ["1", "A", "{{BrowseRelation|10}}", "", ""]
  {
    assert Strip("1") == "1" && Strip("A") == "A" && Strip("10") == "10";
    ExampleRow(line, "1", "A", "10");
    assert "{{BrowseRelation|" + "10" + "}}" == "{{BrowseRelation|10}}";
  }

  lemma ExampleRows(lines: seq<string>)
    requires lines == ["ref|name|@id", "1|A|10"]
    ensures TableRows(lines, "|") == [WikiRow(lines[0], "|"), WikiRow(lines[1], "|")]
  {
    assert lines[..1] == [lines[0]];
    assert lines[..1][..0] == [];
  }

  lemma ExampleSort(h: seq<string>, d: seq<string>)
    requires Key(h) == "ref" && Key(d) == "1"
    ensures SortRows([h, d]) == [d, h]
  {
    assert !LexLe("ref", "1");
    assert [h, d][..1] == [h];
    assert [h][..0] == [];
    assert SortRows([h]) == [h];
    assert Insert([h], d) == Insert([], d) + [h];
  }

  /** The header flag drops the wrong row: for the answer with the CSV
      header `ref|name|@id` and one route `1|A|10`, the header sorts after
      the route, so the header row is printed and the route is not. */
  lemma ExampleTable(lines: seq<string>)
    requires lines == ["ref|name|@id", "1|A|10"]
    ensures TableRows(lines, "|") == [["ref", "name", "{{BrowseRelation|@id}}", "", ""], ["1", "A", "{{BrowseRelation|10}}", "", ""]]
  {
    ExampleHeaderRow(lines[0]);
    ExampleRouteRow(lines[1]);
    ExampleRows(lines);
  }

  lemma WikiHeaderRowShown(data: string)
    requires data == "ref|name|@id\n1|A|10"
    ensures var rows := TableRows(SplitLines(data), "|");
      rows == [["ref", "name", "{{BrowseRelation|@id}}", "", ""], ["1", "A", "{{BrowseRelation|10}}", "", ""]]
      && Shown(SortRows(rows), true) == [rows[0]]
  {
    ExampleLines();
    ExampleTable(SplitLines(data));
    var rows := TableRows(SplitLines(data), "|");
    ExampleSort(rows[0], rows[1]);
  }

  /** What the header flag is for: when it is set the first line of the
      answer is the CSV header, which is left out before sorting, so every
      other line is printed, sorted. */
  function WikiTextIntended(data: string, sep: string, csvheader: bool): Result<string> {
    var lines := SplitLines(data);
    var body := if csvheader && lines != [] then lines[1..] else lines;
    if body != [] && sep == "" then Err(ValueError)
    else Ok(WikiHeader + Blocks(SortRows(TableRows(body, sep))) + WikiFooter)
  }

  /** With the header line left out first, the printed rows are exactly
      the rows of the other lines, sorted. */
  lemma WikiTextIntendedRows(data: string, sep: string, csvheader: bool)
    requires |sep| > 0
    ensures var lines := SplitLines(data);
      var body := if csvheader && lines != [] then lines[1..] else lines;
      var printed := SortRows(TableRows(body, sep));
      WikiTextIntended(data, sep, csvheader) == Ok(WikiHeader + Blocks(printed) + WikiFooter)
      && SortedRows(printed) && multiset(printed) == multiset(TableRows(body, sep))
  {
    var lines := SplitLines(data);
    var body := if csvheader && lines != [] then lines[1..] else lines;
    SortRowsSpec(TableRows(body, sep));
  }

  // ---------------------------------------------------------------------
  // Output formats

  /** The formats `write` accepts. */
  datatype OutFormat = Csv | OsmXml | WikiTable | Json | Tags | GeoJson

  function FormatName(f: OutFormat): string {
    match f
    case Csv => "csv"
    case OsmXml => "osm"
    case WikiTable => "wikitable"
    case Json => "json"
    case Tags => "tags"
    case GeoJson => "geojson"
  }

  /** `write`'s dispatch on `out_format`: ValueError for any other name. */
  function FormatOf(name: string): Result<OutFormat> {
    if name == "csv" then Ok(Csv)
    else if name == "osm" then Ok(OsmXml)
    else if name == "wikitable" then Ok(WikiTable)
    else if name == "json" then Ok(Json)
    else if name == "tags" then Ok(Tags)
    else if name == "geojson" then Ok(GeoJson)
    else Err(ValueError)
  }

  /** Each format is chosen by exactly its own name, and every other name
      raises ValueError. */
  lemma FormatOfSpec(name: string, f: OutFormat)
    ensures FormatOf(FormatName(f)) == Ok(f)
    ensures FormatOf(name).Ok? ==> FormatName(FormatOf(name).value) == name
    ensures FormatOf(name).Err? <==> name !in {"csv", "osm", "wikitable", "json", "tags", "geojson"}
    ensures FormatOf(name).Err? ==> FormatOf(name).error == ValueError
  {
  }
}
