/** `CaiOsmData` of caiosm/data_from_overpass.py and the query its
    subclasses install: it keeps an area or a bounding box, builds the
    Overpass requests, and turns the answers into route tags and a wiki
    table. The HTTP exchange is not modelled: a request method returns the
    request text, and a method that reads an answer takes it as an
    argument. Each method is specified by the functions of `OverpassSpec`. */
module Overpass {
  import opened Values
  import opened PyDict
  import opened Strings
  import opened OverpassSpec
  import Functions

  class CaiOsmData {
    const kind: QueryKind
    const area: Option<string>
    const bbox: Option<string>
    const separator: string
    var csvheader: bool

    /** The fields once the bounding box has been settled. */
    constructor (kind: QueryKind, area: Option<string>, bbox: Option<string>, separator: string)
      ensures this.kind == kind && this.area == area && this.bbox == bbox && this.separator == separator
      ensures !csvheader
    {
      this.kind := kind;
      this.area := area;
      this.bbox := bbox;
      this.separator := separator;
      csvheader := false;
    }

    /** `__init__` of the subclass for `kind`: the source-ref subclasses
        pass no box (and the single-code one no area) to `CaiOsmData`,
        whose box is kept as given or swapped; swapping fails as
        `invert_bbox` does, or on a missing box. */
    static method Create(kind: QueryKind, area: Option<string>, bbox: Option<string>, inverted: bool, separator: string)
      returns (r: Result<CaiOsmData>)
      ensures var a := if kind.RouteSourceRef? then None else area;
        var refs := kind.SourceRef? || kind.RouteSourceRef?;
        var kept := InitBbox(if refs then None else bbox, inverted && !refs);
        && (r.Ok? <==> kept.Ok?)
        && (r.Err? ==> r.error == kept.error)
        && (r.Ok? ==> (fresh(r.value) && r.value.kind == kind && r.value.area == a && r.value.bbox == kept.value
                       && r.value.separator == separator && !r.value.csvheader))
    {
      var a := if kind.RouteSourceRef? then None else area;
      var refs := kind.SourceRef? || kind.RouteSourceRef?;
      var b := if refs then None else bbox;
      var kept: Option<string>;
      if inverted && !refs {
        if b.None? {
          return Err(AttributeError);
        }
        var swapped := Functions.InvertBbox(b.value);
        if swapped.Err? {
          return Err(swapped.error);
        }
        kept := Some(swapped.value);
      } else {
        kept := b;
      }
      var data := new CaiOsmData(kind, a, kept, separator);
      return Ok(data);
    }

    /** The query with the network filter and the area or box filled in,
        taking the branches of the request builders. */
    method FillQuery(network: string) returns (areaLine: string, query: string)
      ensures areaLine == ScopeOf(area, bbox).areaLine && query == Query(kind, area, bbox, network)
    {
      var netw := Functions.CheckNetwork(network);
      if Truthy(area) {
        areaLine := AreaLine(area.value);
        query := QueryText(kind, netw, "area.a");
      } else if Truthy(bbox) {
        areaLine := "";
        query := QueryText(kind, netw, bbox.value);
      } else {
        areaLine := "";
        query := QueryText(kind, netw, "");
      }
    }

    /** `get_data_csv`: asking for the header once makes every later CSV
        request ask for it; the request lists the columns, the header flag
        and the separator. */
    method GetDataCsv(csvheader: bool, cols: string, network: string) returns (request: string)
      modifies this
      ensures this.csvheader == (old(this.csvheader) || csvheader)
      ensures request == CsvRequest(kind, area, bbox, network, cols, this.csvheader, separator)
    {
      if csvheader {
        this.csvheader := true;
      }
      var areaLine, query := FillQuery(network);
      request := CsvHead(cols, this.csvheader, separator) + (areaLine + "\n" + query) + "\nout;\n";
    }

    /** `get_data_osm`'s request. */
    method GetDataOsm(network: string) returns (request: string)
      ensures request == OsmRequest(kind, area, bbox, network)
    {
      var areaLine, query := FillQuery(network);
      request := "[out:xml]\n;\n" + (areaLine + "\n" + query) + "\nout;\n>;\nout skel qt;\nout;";
    }

    /** `get_data_json`'s request. */
    method GetDataJson(network: string) returns (request: string)
      ensures request == JsonRequest(kind, area, bbox, network)
    {
      var areaLine, query := FillQuery(network);
      request := "[out:json]\n;\n" + (areaLine + "\n" + query) + "\nout;\n>;\nout skel qt;";
    }

    /** `get_tags_json` on the elements of the JSON answer. */
    method GetTagsJson(elements: seq<Element>) returns (r: Result<seq<Dict<string, Val>>>)
      ensures r == TagsOf(elements)
    {
      var tags: seq<Dict<string, Val>> := [];
      var i := 0;
      while i < |elements|
        invariant 0 <= i <= |elements|
        invariant TagsOf(elements[..i]) == Ok(tags)
      {
        assert elements[..i + 1][..i] == elements[..i];
        var elem := elements[i];
        if elem.kind == "relation" {
          if elem.tags.None? || !Has(elem.tags.value, "type") {
            TagsOfFailed(elements, i + 1, |elements|);
            assert elements[..|elements|] == elements;
            return Err(KeyError);
          }
          if Get(elem.tags.value, "type") == Some(Text("route")) && Has(elem.tags.value, "cai_scale") {
            var vals := Put(elem.tags.value, "id", Id(elem.id));
            tags := tags + [vals];
          }
        }
        i := i + 1;
      }
      assert elements[..i] == elements;
      return Ok(tags);
    }

    /** `wiki_table` on the CSV answer `data`. */
    method WikiTable(data: string) returns (r: Result<string>)
      ensures r == WikiText(data, separator, csvheader)
    {
      var lines := SplitLines(data);
      var table: seq<seq<string>> := [];
      var n := 0;
      while n < |lines|
        invariant 0 <= n <= |lines|
        invariant n > 0 ==> |separator| > 0
        invariant table == TableRows(lines[..n], separator)
      {
        if separator == "" {
          return Err(ValueError);
        }
        var row := MakeRow(lines[n], separator);
        TableRowsStep(lines, n, separator);
        table := table + [row];
        n := n + 1;
      }
      assert lines[..n] == lines;
      var sorted := SortRows(table);
      var out := Render(sorted, csvheader);
      out := out + "|-\n|}\n";
      return Ok(out);
    }

    /** `write`'s check of `out_format` (the data it fetches and the file
        it writes are not modelled). */
    method Write(outFormat: string) returns (r: Result<OutFormat>)
      ensures r == FormatOf(outFormat)
    {
      if outFormat == "csv" {
        r := Ok(Csv);
      } else if outFormat == "osm" {
        r := Ok(OsmXml);
      } else if outFormat == "wikitable" {
        r := Ok(OutFormat.WikiTable);
      } else if outFormat == "json" {
        r := Ok(Json);
      } else if outFormat == "tags" {
        r := Ok(Tags);
      } else if outFormat == "geojson" {
        r := Ok(GeoJson);
      } else {
        r := Err(ValueError);
      }
    }
  }

  /** The row `wiki_table` builds from one line: the stripped fields, the
      third as a browse link, then two empty cells. */
  method MakeRow(line: string, separator: string) returns (row: seq<string>)
    requires |separator| > 0
    ensures row == WikiRow(line, separator)
  {
    var fields := Split(line, separator);
    row := [];
    var x := 0;
    while x < |fields|
      invariant 0 <= x <= |fields|
      invariant row == WikiCells(fields[..x])
    {
      WikiCellsStep(fields, x);
      var field := Strip(fields[x]);
      if x == 2 {
        row := row + ["{{BrowseRelation|" + field + "}}"];
      } else {
        row := row + [field];
      }
      x := x + 1;
    }
    assert fields[..x] == fields;
    row := row + ["", ""];
  }

  /** The table heading and the blocks of the rows printed, the first
      sorted row being skipped under the header flag. */
  method Render(sorted: seq<seq<string>>, csvheader: bool) returns (out: string)
    ensures out == WikiHeader + Blocks(Shown(sorted, csvheader))
  {
    out := "{| class=\"wikitable sortable mw-collapsible mw-collapsed\" \n";
    out := out + "|-\n";
    out := out + "!Ref\n!Nome\n!Link route\n!%completamento\n!note\n";
    assert out == WikiHeader + "";
    ghost var body := "";
    var i := 0;
    while i < |sorted|
      invariant 0 <= i <= |sorted|
      invariant body == Blocks(Shown(sorted[..i], csvheader)) && out == WikiHeader + body
    {
      if i == 0 && csvheader {
        ShownStep(sorted, i, csvheader);
        i := i + 1;
        continue;
      }
      var row := sorted[i];
      ghost var out0 := out;
      out := out + "|-\n";
      out := out + Join(Delimited(row), "\n");
      out := out + "\n";
      RenderStep(sorted, i, csvheader, out0, body);
      body := Blocks(Shown(sorted[..i + 1], csvheader));
      i := i + 1;
    }
    assert sorted[..i] == sorted;
  }

  /** One more sorted row: the first is left out under the header flag,
      every other one is printed. */
  lemma ShownStep(sorted: seq<seq<string>>, i: nat, csvheader: bool)
    requires i < |sorted|
    ensures i == 0 && csvheader ==> Shown(sorted[..i + 1], csvheader) == Shown(sorted[..i], csvheader)
    ensures !(i == 0 && csvheader) ==>
              Shown(sorted[..i + 1], csvheader) == Shown(sorted[..i], csvheader) + [sorted[i]]
  {
    if csvheader && i > 0 {
      assert sorted[..i + 1][1..] == sorted[1..i + 1];
      assert sorted[..i][1..] == sorted[1..i];
      assert sorted[1..i + 1] == sorted[1..i] + [sorted[i]];
    } else if !csvheader {
      assert sorted[..i + 1] == sorted[..i] + [sorted[i]];
    }
  }

  /** Printing a shown row appends its block. */
  lemma RenderStep(sorted: seq<seq<string>>, i: nat, csvheader: bool, out0: string, body0: string)
    requires i < |sorted| && !(i == 0 && csvheader)
    requires body0 == Blocks(Shown(sorted[..i], csvheader)) && out0 == WikiHeader + body0
    ensures out0 + "|-\n" + Join(Delimited(sorted[i]), "\n") + "\n"
            == WikiHeader + Blocks(Shown(sorted[..i + 1], csvheader))
  {
    ShownStep(sorted, i, csvheader);
    BlocksStep(Shown(sorted[..i], csvheader), sorted[i]);
    Regroup(WikiHeader, body0, "|-\n", Join(Delimited(sorted[i]), "\n"), "\n");
  }

  lemma WikiCellsStep(fields: seq<string>, x: nat)
    requires x < |fields|
    ensures WikiCells(fields[..x + 1]) == WikiCells(fields[..x]) + [WikiCell(x, fields[x])]
  {
    assert fields[..x + 1][..x] == fields[..x];
  }

  lemma TableRowsStep(lines: seq<string>, n: nat, sep: string)
    requires n < |lines| && |sep| > 0
    ensures TableRows(lines[..n + 1], sep) == TableRows(lines[..n], sep) + [WikiRow(lines[n], sep)]
  {
    assert lines[..n + 1][..n] == lines[..n];
  }

  lemma BlocksStep(rows: seq<seq<string>>, row: seq<string>)
    ensures Blocks(rows + [row]) == Blocks(rows) + RowBlock(row)
  {
    assert (rows + [row])[..|rows|] == rows;
  }

  lemma Regroup(h: string, b: string, p: string, j: string, n: string)
    ensures h + b + p + j + n == h + (b + (p + j + n))
  {
  }
}
