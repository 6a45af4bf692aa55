/** `CaiRoutesHandler` of caiosm/osmium_handler.py: the handler the OSM
    reader calls once per way and per relation, which stores them and then
    derives route features, way features, membership edges, output schemas
    and the CSV table of routes. Its dictionaries are fields the methods
    reassign; each method is specified by the functions of `HandlerSpec`. */
module RoutesHandler {
  import opened Values
  import opened PyDict
  import opened Osm
  import opened Classifier
  import opened HandlerSpec
  import opened Strings
  import Functions

  class CaiRoutesHandler {
    const infomont: bool
    const sep: string
    var count: int
    var routes: Dict<int, RouteRec>
    var ways: Dict<int, WayRec>
    var members: Dict<int, seq<int>>
    var gjson: seq<Feature>
    var wjson: seq<Feature>
    var routeSchema: Schema
    var waySchema: Schema
    const membSchema: Schema

    /** The dictionaries have distinct keys, every way has a membership
        list (both are created together), and the stored tags are OSM tags
        plus the integer `id`. */
    ghost predicate Valid()
      reads this
    {
      && DistinctKeys(routes) && DistinctKeys(ways) && DistinctKeys(members)
      && KeySet(members) == KeySet(ways)
      && WaysTagged(ways) && RoutesTagged(routes)
    }

    constructor (separator: string, infomont: bool)
      ensures Valid()
      ensures this.infomont == infomont && sep == separator && count == 0
      ensures routes == [] && ways == [] && members == [] && gjson == [] && wjson == []
      ensures routeSchema == Schema("MultiLineString", if infomont then Some(InfomontRouteFields) else None)
      ensures waySchema == Schema("LineString", if infomont then Some(InfomontWayFields) else None)
      ensures membSchema == Schema("LineString", Some(MemberFields))
    {
      this.infomont := infomont;
      sep := separator;
      count := 0;
      routes := [];
      ways := [];
      members := [];
      gjson := [];
      wjson := [];
      routeSchema := Schema("MultiLineString", if infomont then Some(InfomontRouteFields) else None);
      waySchema := Schema("LineString", if infomont then Some(InfomontWayFields) else None);
      membSchema := Schema("LineString", Some(MemberFields));
    }

    /** `way`: an empty membership list for the way, and its record: the
        line geometry when it could be built, and its tags after `id`. */
    method Way(w: OsmWay)
      requires Valid()
      modifies this
      ensures Valid()
      ensures members == Put(old(members), w.id, [])
      ensures ways == Put(old(ways), w.id, WayRec(w.line, WayTags(w)))
      ensures routes == old(routes) && count == old(count) && gjson == old(gjson) && wjson == old(wjson)
      ensures routeSchema == old(routeSchema) && waySchema == old(waySchema)
    {
      var m0 := members;
      members := Put(members, w.id, []);
      var tags := StoreTags([("id", Id(w.id))], w.tags);
      var rec := WayRec(w.line, tags);
      TagDictWellFormed([("id", Id(w.id))], w.tags);
      WayStored(ways, m0, w.id, rec);
      ways := Put(ways, w.id, rec);
    }

    /** `relation`: the way members in order, the tags with `id` set last,
        stored under the relation id; the route counter goes up by one. */
    method Relation(r: OsmRelation)
      requires Valid()
      modifies this
      ensures Valid()
      ensures routes == Put(old(routes), r.id, RouteRec(RelationTags(r), WayRefs(r.members), None))
      ensures count == old(count) + 1
      ensures ways == old(ways) && members == old(members) && gjson == old(gjson) && wjson == old(wjson)
      ensures routeSchema == old(routeSchema) && waySchema == old(waySchema)
    {
      var elems := CollectWayRefs(r.members);
      var tags := StoreTags([], r.tags);
      tags := Put(tags, "id", Id(r.id));
      count := count + 1;
      var rec := RouteRec(tags, elems, None);
      TagDictWellFormed([], r.tags);
      PutTagged(TagDict([], r.tags), "id", Id(r.id));
      RouteStored(routes, r.id, rec);
      routes := Put(routes, r.id, rec);
    }

    /** `_create_schema`: for `route` the route schema's fields become the
        union of the route tag keys, for `way` the way schema's the union of
        the way tag keys, all typed 'str'; any other value changes nothing. */
    method CreateSchema(typ: string)
      requires Valid()
      modifies this
      ensures Valid()
      ensures routeSchema == if typ == "route" then old(routeSchema).(properties := Some(SchemaOf(RouteTagList(routes))))
                             else old(routeSchema)
      ensures waySchema == if typ == "way" then old(waySchema).(properties := Some(SchemaOf(WayTagList(ways))))
                           else old(waySchema)
      ensures routes == old(routes) && ways == old(ways) && members == old(members)
      ensures count == old(count) && gjson == old(gjson) && wjson == old(wjson)
    {
      if typ == "route" {
        var outdict := UnionKeys(RouteTagList(routes));
        routeSchema := routeSchema.(properties := Some(outdict));
      }
      if typ == "way" {
        var outdict := UnionKeys(WayTagList(ways));
        waySchema := waySchema.(properties := Some(outdict));
      }
    }

    /** The way-id bookkeeping of `length`: for each route in order, the
        member ways measured for it, each way at most once across the call
        (the projection and the length sum are not modelled). A KeyError
        when a way to measure has no geometry. */
    method LengthParts() returns (r: Result<seq<seq<int>>>)
      requires Valid()
      ensures var t := TallyRoutes(routes, ways, |routes|);
        r == if t.failed then Err(KeyError) else Ok(t.parts)
    {
      var alreadid: seq<int> := [];
      var parts: seq<seq<int>> := [];
      var i := 0;
      while i < |routes|
        invariant 0 <= i <= |routes|
        invariant TallyRoutes(routes, ways, i) == Tally(alreadid, parts, false)
      {
        var ws := routes[i].1.elems;
        var seen0 := alreadid;
        var lines: seq<int> := [];
        var j := 0;
        while j < |ws|
          invariant 0 <= j <= |ws|
          invariant TallyRoute(seen0, ways, ws[..j]) == (alreadid, lines, false)
        {
          assert ws[..j + 1][..j] == ws[..j];
          var w := ws[j];
          if w !in alreadid {
            if !Resolved(ways, w) {
              TallyRouteFailed(seen0, ways, ws, j + 1);
              TallyRoutesFailed(routes, ways, i + 1, |routes|);
              return Err(KeyError);
            }
            lines := lines + [w];
            alreadid := alreadid + [w];
          }
          j := j + 1;
        }
        assert ws[..j] == ws;
        parts := parts + [lines];
        i := i + 1;
      }
      return Ok(parts);
    }

    /** The inner loop of `create_routes_geojson` for route `k`: `k` is
        appended to the membership list of each member way in turn, and
        the way's line collected, until a KeyError. */
    method LinkMembers(k: int, ws: seq<int>) returns (lines: seq<Line>, failed: bool)
      requires DistinctKeys(members) && KeySet(members) == KeySet(ways)
      modifies this
      ensures LinkWays(old(members), ways, k, ws) == Link(members, lines, failed)
      ensures DistinctKeys(members) && KeySet(members) == KeySet(ways)
      ensures ways == old(ways) && routes == old(routes) && gjson == old(gjson) && wjson == old(wjson)
      ensures count == old(count) && routeSchema == old(routeSchema) && waySchema == old(waySchema)
    {
      var m0 := members;
      lines := [];
      var j := 0;
      while j < |ws|
        invariant 0 <= j <= |ws|
        invariant LinkWays(m0, ways, k, ws[..j]) == Link(members, lines, false)
        invariant DistinctKeys(members) && KeySet(members) == KeySet(ways)
        invariant ways == old(ways) && routes == old(routes) && gjson == old(gjson) && wjson == old(wjson)
        invariant count == old(count) && routeSchema == old(routeSchema) && waySchema == old(waySchema)
      {
        assert ws[..j + 1][..j] == ws[..j];
        var w := ws[j];
        if !Has(members, w) {
          LinkWaysFailed(m0, ways, k, ws, j + 1);
          return lines, true;
        }
        var v := Get(members, w).value + [k];
        PutDistinct(members, w, v);
        PutKeySet(members, w, v);
        members := Put(members, w, v);
        if !Resolved(ways, w) {
          LinkWaysFailed(m0, ways, k, ws, j + 1);
          return lines, true;
        }
        lines := lines + [GeomOf(ways, w)];
        j := j + 1;
      }
      assert ws[..j] == ws;
      failed := false;
    }

    /** `create_routes_geojson`: for each route in order, its id appended
        to the membership list of each member way and the members' lines
        collected; the route gets the lines as its geometry and a feature
        with its properties is appended to `gjson`. A missing membership
        list or way geometry raises KeyError and leaves everything as far
        as the loops got. */
    method CreateRoutesGeojson() returns (err: Option<Error>)
      requires Valid()
      modifies this
      ensures Valid()
      ensures var p := RoutesPass(old(members), old(routes), ways, |old(routes)|);
        && members == p.members
        && routes == SetGeoms(old(routes), p.geoms)
        && gjson == old(gjson) + RouteFeatures(old(routes), p.geoms, infomont)
        && err == (if p.failed then Some(KeyError) else None)
      ensures ways == old(ways) && count == old(count) && wjson == old(wjson)
      ensures routeSchema == old(routeSchema) && waySchema == old(waySchema)
    {
      err := None;
      var rs, m0, g0 := routes, members, gjson;
      var geoms: seq<seq<Line>> := [];
      var i := 0;
      while i < |rs|
        invariant 0 <= i <= |rs| && |geoms| == i
        invariant RoutesPass(m0, rs, ways, i) == Progress(members, geoms, false)
        invariant routes == SetGeoms(rs, geoms) && DistinctKeys(routes) && RoutesTagged(routes)
        invariant gjson == g0 + RouteFeatures(rs, geoms, infomont)
        invariant DistinctKeys(members) && KeySet(members) == KeySet(ways)
        invariant ways == old(ways) && count == old(count) && wjson == old(wjson)
        invariant routeSchema == old(routeSchema) && waySchema == old(waySchema)
      {
        var (k, v) := rs[i];
        ghost var mi := members;
        var lines, failed := LinkMembers(k, v.elems);
        RoutesPassStep(m0, rs, ways, i, mi, geoms, Link(members, lines, failed));
        if failed {
          RoutesPassFailed(m0, rs, ways, i + 1, |rs|);
          return Some(KeyError);
        }
        CompleteRoute(rs, geoms, g0, lines);
        geoms := geoms + [lines];
        i := i + 1;
      }
    }

    /** The end of one route of `create_routes_geojson`: its lines become
        its geometry and its feature is appended to `gjson`. */
    method CompleteRoute(rs: Dict<int, RouteRec>, geoms: seq<seq<Line>>, g0: seq<Feature>, lines: seq<Line>)
      requires |geoms| < |rs| && DistinctKeys(rs) && RoutesTagged(rs)
      requires routes == SetGeoms(rs, geoms) && gjson == g0 + RouteFeatures(rs, geoms, infomont)
      modifies this
      ensures routes == SetGeoms(rs, geoms + [lines]) && DistinctKeys(routes) && RoutesTagged(routes)
      ensures gjson == g0 + RouteFeatures(rs, geoms + [lines], infomont)
      ensures ways == old(ways) && members == old(members) && count == old(count) && wjson == old(wjson)
      ensures routeSchema == old(routeSchema) && waySchema == old(waySchema)
    {
      var (k, v) := rs[|geoms|];
      SetGeomsStep(rs, geoms, lines);
      routes := Put(routes, k, RouteRec(v.tags, v.elems, Some(lines)));
      gjson := gjson + [Feature(MultiLineString(lines), RouteProperties(v.tags, infomont))];
      RouteFeaturesStep(rs, geoms, lines, infomont);
      SetGeomsKeeps(rs, geoms + [lines]);
    }

    /** `create_way_geojson`: one line feature per way with its properties;
        in Infomont mode the features then go through the splitter (given
        as `split`, with the id prefix). A way without geometry raises
        KeyError before `wjson` is touched. */
    method CreateWayGeojson(split: (seq<Feature>, Option<string>) -> seq<Feature>, prefix: Option<string>)
      returns (err: Option<Error>)
      requires Valid()
      modifies this
      ensures Valid()
      ensures match WayFeatures(ways, infomont)
        case Err(e) => err == Some(e) && wjson == old(wjson)
        case Ok(fs) => err == None && wjson == if infomont then split(fs, prefix) else fs
      ensures ways == old(ways) && routes == old(routes) && members == old(members)
      ensures count == old(count) && gjson == old(gjson)
      ensures routeSchema == old(routeSchema) && waySchema == old(waySchema)
    {
      var features: seq<Feature> := [];
      var i := 0;
      while i < |ways|
        invariant 0 <= i <= |ways|
        invariant WayFeatures(ways[..i], infomont) == Ok(features)
      {
        assert ways[..i + 1][..i] == ways[..i];
        var (k, v) := ways[i];
        if v.geom.None? {
          WayFeaturesSpec(ways, infomont);
          return Some(KeyError);
        }
        features := features + [WayFeature(k, v, infomont)];
        i := i + 1;
      }
      assert ways[..i] == ways;
      if infomont {
        features := split(features, prefix);
      }
      wjson := features;
      return None;
    }

    /** `write_relation_members_infomont_geo`: for each way feature, one
        edge per route in its membership list. Changes nothing. */
    method WriteRelationMembersInfomontGeo() returns (r: Result<seq<Feature>>)
      ensures r == MemberEdges(members, wjson)
    {
      var features: seq<Feature> := [];
      var i := 0;
      while i < |wjson|
        invariant 0 <= i <= |wjson|
        invariant MemberEdges(members, wjson[..i]) == Ok(features)
      {
        PrefixStep(wjson, i);
        var feat := wjson[i];
        var osmid := Get(feat.properties, "osm_id_way");
        var newid := Get(feat.properties, "IDTrat");
        if osmid.None? || newid.None? || osmid.value.Text? || !Has(members, osmid.value.n) {
          MemberEdgesFailed(members, wjson, i);
          return Err(KeyError);
        }
        var routes := Get(members, osmid.value.n).value;
        var f0 := features;
        var j := 0;
        while j < |routes|
          invariant 0 <= j <= |routes|
          invariant features == f0 + Edges(feat.geometry, routes[..j], newid.value)
        {
          EdgesStep(feat.geometry, routes, j, newid.value, f0);
          features := features + [Feature(feat.geometry, [("IDPerc", Id(routes[j])), ("IDtrat", newid.value)])];
          j := j + 1;
        }
        assert routes[..j] == routes;
        i := i + 1;
      }
      PrefixAll(wjson);
      return Ok(features);
    }

    /** `write_relation_members_infomont`, iterating over the way features
        themselves: the CSV text of the membership edges. Changes nothing. */
    method WriteRelationMembersInfomont() returns (r: Result<string>)
      ensures r == MembersCsv(members, wjson, sep)
    {
      var outext := MembersHeader(sep);
      ghost var body := "";
      var i := 0;
      while i < |wjson|
        invariant 0 <= i <= |wjson|
        invariant MembersBody(members, wjson[..i], sep) == Ok(body) && outext == MembersHeader(sep) + body
      {
        PrefixStep(wjson, i);
        var feat := wjson[i];
        var osmid := Get(feat.properties, "osm_id_way");
        var newid := Get(feat.properties, "IDTrat");
        if osmid.None? || newid.None? || osmid.value.Text? || !Has(members, osmid.value.n) {
          MembersCsvFailed(members, wjson, i, sep);
          return Err(KeyError);
        }
        var routes := Get(members, osmid.value.n).value;
        ghost var b0 := body;
        var j := 0;
        while j < |routes|
          invariant 0 <= j <= |routes|
          invariant body == b0 + RouteLines(routes[..j], newid.value, sep) && outext == MembersHeader(sep) + body
        {
          var line := RouteLine(routes[j], newid.value, sep);
          Concat3(MembersHeader(sep), body, line);
          RouteLinesStep(routes, j, newid.value, sep, b0);
          outext := outext + line;
          body := body + line;
          j := j + 1;
        }
        assert routes[..j] == routes;
        MembersBodyStep(members, wjson, i, sep);
        i := i + 1;
      }
      PrefixAll(wjson);
      return Ok(outext);
    }

    /** `write_relations_infomont`: the route table, one record per route
        with the route columns. Changes nothing. */
    method WriteRelationsInfomont() returns (records: seq<seq<string>>)
      ensures |records| == |routes| + 1 && records[0] == RouteColumns
      ensures forall i :: 0 <= i < |routes| ==> records[i + 1] == Functions.Project(RouteColumns, routes[i].1.tags)
    {
      records := Functions.WriteDictToCsv(RouteColumns, RouteTagList(routes));
    }

    /** The schema `write_geojson` writes with: `route` and `way` first
        recompute theirs from the tags unless in Infomont mode, `members`
        uses the fixed one, anything else is a ValueError. */
    method SelectSchema(typ: string) returns (r: Result<Schema>)
      requires Valid()
      modifies this
      ensures Valid()
      ensures typ !in ["route", "way", "members"] ==> r == Err(ValueError)
      ensures typ == "route" ==> (r == Ok(routeSchema) &&
                routeSchema == if infomont then old(routeSchema)
                               else old(routeSchema).(properties := Some(SchemaOf(RouteTagList(routes)))))
      ensures typ == "way" ==> (r == Ok(waySchema) &&
                waySchema == if infomont then old(waySchema)
                             else old(waySchema).(properties := Some(SchemaOf(WayTagList(ways)))))
      ensures typ == "members" ==> r == Ok(membSchema)
      ensures typ != "route" ==> routeSchema == old(routeSchema)
      ensures typ != "way" ==> waySchema == old(waySchema)
      ensures routes == old(routes) && ways == old(ways) && members == old(members)
      ensures count == old(count) && gjson == old(gjson) && wjson == old(wjson)
    {
      if typ == "route" {
        if !infomont {
          CreateSchema("route");
        }
        return Ok(routeSchema);
      } else if typ == "way" {
        if !infomont {
          CreateSchema("way");
        }
        return Ok(waySchema);
      } else if typ == "members" {
        return Ok(membSchema);
      }
      return Err(ValueError);
    }
  }

  /** The loops of `_create_schema` over a list of tag dictionaries. */
  method UnionKeys(ds: seq<Dict<string, Val>>) returns (outdict: Dict<string, string>)
    ensures outdict == SchemaOf(ds)
  {
    outdict := [];
    var i := 0;
    while i < |ds|
      invariant 0 <= i <= |ds|
      invariant outdict == SchemaOf(ds[..i])
    {
      assert ds[..i + 1][..i] == ds[..i];
      var tags := ds[i];
      if KeySet(outdict) != KeySet(tags) {
        var o0 := outdict;
        var j := 0;
        while j < |tags|
          invariant 0 <= j <= |tags|
          invariant outdict == AddKeys(o0, tags[..j])
        {
          assert tags[..j + 1][..j] == tags[..j];
          if !Has(outdict, tags[j].0) {
            outdict := outdict + [(tags[j].0, "str")];
          }
          j := j + 1;
        }
        assert tags[..j] == tags;
      }
      i := i + 1;
    }
    assert ds[..i] == ds;
  }

  lemma WayStored(ways: Dict<int, WayRec>, members: Dict<int, seq<int>>, id: int, rec: WayRec)
    requires DistinctKeys(ways) && DistinctKeys(members) && KeySet(members) == KeySet(ways)
    requires WaysTagged(ways) && OsmTagged(rec.tags)
    ensures DistinctKeys(Put(ways, id, rec)) && DistinctKeys(Put(members, id, []))
    ensures KeySet(Put(members, id, [])) == KeySet(Put(ways, id, rec))
    ensures WaysTagged(Put(ways, id, rec))
  {
    PutDistinct(ways, id, rec);
    PutDistinct(members, id, []);
    PutKeySetAdd(ways, id, rec);
    PutKeySetAdd(members, id, []);
    forall i | 0 <= i < |Put(ways, id, rec)| ensures OsmTagged(Put(ways, id, rec)[i].1.tags) {
      PutEntry(ways, id, rec, i);
    }
  }

  lemma RouteStored(routes: Dict<int, RouteRec>, id: int, rec: RouteRec)
    requires DistinctKeys(routes) && RoutesTagged(routes) && OsmTagged(rec.tags)
    ensures DistinctKeys(Put(routes, id, rec)) && RoutesTagged(Put(routes, id, rec))
  {
    PutDistinct(routes, id, rec);
    forall i | 0 <= i < |Put(routes, id, rec)| ensures OsmTagged(Put(routes, id, rec)[i].1.tags) {
      PutEntry(routes, id, rec, i);
    }
  }

  /** One more membership edge of a way feature. */
  lemma EdgesStep(g: Geometry, routes: seq<int>, j: nat, newid: Val, f0: seq<Feature>)
    requires j < |routes|
    ensures f0 + Edges(g, routes[..j], newid) + [Feature(g, [("IDPerc", Id(routes[j])), ("IDtrat", newid)])]
            == f0 + Edges(g, routes[..j + 1], newid)
  {
    assert routes[..j + 1][..j] == routes[..j];
    AppendAssoc(f0, Edges(g, routes[..j], newid), [Feature(g, [("IDPerc", Id(routes[j])), ("IDtrat", newid)])]);
  }

  /** One more membership line of a way feature. */
  lemma RouteLinesStep(routes: seq<int>, j: nat, newid: Val, sep: string, b0: string)
    requires j < |routes|
    ensures b0 + RouteLines(routes[..j], newid, sep) + RouteLine(routes[j], newid, sep)
            == b0 + RouteLines(routes[..j + 1], newid, sep)
  {
    assert routes[..j + 1][..j] == routes[..j];
    Concat3(b0, RouteLines(routes[..j], newid, sep), RouteLine(routes[j], newid, sep));
  }

  /** One more route of `create_routes_geojson`: its member loop either
      completes, adding its lines, or stops the pass. */
  lemma RoutesPassStep(m0: Dict<int, seq<int>>, rs: Dict<int, RouteRec>, ways: Dict<int, WayRec>, i: nat,
                       mi: Dict<int, seq<int>>, geoms: seq<seq<Line>>, l: Link)
    requires i < |rs|
    requires RoutesPass(m0, rs, ways, i) == Progress(mi, geoms, false)
    requires LinkWays(mi, ways, rs[i].0, rs[i].1.elems) == l
    ensures RoutesPass(m0, rs, ways, i + 1) == Progress(l.members, if l.failed then geoms else geoms + [l.lines], l.failed)
  {
  }

  lemma SetGeomsStep(rs: Dict<int, RouteRec>, geoms: seq<seq<Line>>, lines: seq<Line>)
    requires |geoms| < |rs| && DistinctKeys(rs) && RoutesTagged(rs)
    ensures var i := |geoms|;
      Put(SetGeoms(rs, geoms), rs[i].0, RouteRec(rs[i].1.tags, rs[i].1.elems, Some(lines)))
        == SetGeoms(rs, geoms + [lines])
  {
    var i := |geoms|;
    var r := SetGeoms(rs, geoms);
    SetGeomsKeeps(rs, geoms);
    SetGeomsAt(rs, geoms, i);
    PutAt(r, i, RouteRec(rs[i].1.tags, rs[i].1.elems, Some(lines)));
    assert (geoms + [lines])[..i] == geoms;
  }

  lemma RouteFeaturesStep(rs: Dict<int, RouteRec>, geoms: seq<seq<Line>>, lines: seq<Line>, infomont: bool)
    requires |geoms| < |rs| && RoutesTagged(rs)
    ensures RouteFeatures(rs, geoms, infomont) + [Feature(MultiLineString(lines), RouteProperties(rs[|geoms|].1.tags, infomont))]
            == RouteFeatures(rs, geoms + [lines], infomont)
  {
  }
}
