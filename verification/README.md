# CAI hiking routes from OpenStreetMap — a Dafny model

`caiosm` turns OpenStreetMap data about the hiking trails of the Club Alpino
Italiano (CAI) into datasets: route geometries, the length of the network,
and tables in the schema of the Infomont trail cadastre. This project
models its core and proves what that core promises:

- **`CaiRoutesHandler`** (caiosm/osmium_handler.py). An osmium handler that
  stores every way and every route relation by id. From that store it builds:
  - the route features, each with its Infomont fields and its `segni` waymark
    code;
  - the way features, each with its `TIPOLOGIA` path type and `CARATTER`
    surface code;
  - the route↔way membership index and the membership export;
  - the way-id bookkeeping of `length`;
  - the GeoJSON schema `write_geojson` writes with.
- **`CaiStatsHandler`**. Keeps changesets filtered by a user and a comment
  text, and the CAI routes by an accepted author.
- **caiosm/functions.py helpers**: `invert_bbox`, `check_network`,
  `clean_tags`, and the row projection of `WriteDictToCSV`.
- **`CaiOsmData` and its subclasses** (caiosm/data_from_overpass.py):
  - the bounding box kept at construction;
  - the Overpass request texts, where the area takes precedence over the box;
  - the tag filter of `get_tags_json`;
  - the MediaWiki table of `wiki_table`;
  - the format check of `write`.

Layout:

| file | module | contents |
|---|---|---|
| values.dfy | `Values` | `Option`, `Result`, the Python exceptions the code raises, and tag values (text, or the integer `id` the handlers add) |
| pydict.dfy | `PyDict` | an insertion-ordered Python `dict` as a sequence of pairs with distinct keys; `d[k] = v` replaces in place or appends |
| strings.dfy | `Strings` | `split`, `join`, `strip`, `splitlines`, `in` on strings, and Python's string ordering |
| functions.dfy | `Functions` | the helpers of caiosm/functions.py |
| classifier.dfy | `Classifier` | the Infomont rule tables and the classification branches |
| osm.dfy | `Osm` | the OSM primitives the reader delivers; geometry is an opaque token |
| handler_spec.dfy | `HandlerSpec` | the functions that specify the route handler's loops, and the lemmas about them |
| routes_handler.dfy | `RoutesHandler` | `CaiRoutesHandler` as a class, its dictionaries as fields |
| stats_handler.dfy | `StatsHandler` | `CaiStatsHandler` as a class |
| overpass_spec.dfy | `OverpassSpec` | request texts, tag filter, wiki table and format names as functions, and the lemmas about them |
| overpass.dfy | `Overpass` | `CaiOsmData` as a class, one kind per subclass query |

Python exceptions become `Err` results. Where an exception stops a loop
after it has changed the handler, the model keeps exactly the state the
loop had reached.

Where the code departs from the documented design, the model follows the code:

- `length` shares its list of measured ways across every route of one call.
  A way that belongs to two routes is measured only for the first of them
  (caiosm/osmium_handler.py:147-156).
- A route whose member way is missing makes `create_routes_geojson` and
  `length` raise KeyError for the whole call. The routes after it are not
  processed, not reported route by route (caiosm/osmium_handler.py:176-177,
  155).
- `clean_tags`: a key without `:` does not always keep its value. A later key
  that cleans to the same text overwrites it (`Functions.CleanedCollision`).

## Model

| member | source | states |
|---|---|---|
| Functions.InvertBbox | caiosm/functions.py:20-27 | raises IndexError exactly when the box has fewer than four comma-separated fields |
| Functions.InvertBboxFields | caiosm/functions.py:25-27 | the result has four fields: the input's second, first, fourth and third |
| Functions.InvertBboxTwice | caiosm/functions.py:20-27 | swapping twice gives back the first four fields, so a four-field box comes back unchanged |
| Functions.InvertBboxDropsExtra | caiosm/functions.py:25-27 | fields after the fourth do not change the result |
| Functions.CheckNetwork | caiosm/functions.py:29-36 | the filter is non-empty exactly for lwn, rwn, nwn and iwn, and is then `["network"="<net>"]` |
| Functions.CleanKey | caiosm/functions.py:77-80 | a cleaned key has no `:`; a key without `:` is unchanged |
| Functions.Cleaned | caiosm/functions.py:75-81 | the cleaned dictionary has distinct keys |
| Functions.CleanTags | caiosm/functions.py:70-81 | the loop builds the cleaned dictionary |
| Functions.CleanedShape | caiosm/functions.py:70-81 | no key contains `:`; there are no more entries than in the input; each entry is an input value under its cleaned key |
| Functions.CleanedGet | caiosm/functions.py:75-81 | the value under a key is the one of the last input key that cleans to it, or none |
| Functions.CleanedKeepsPlainKey | caiosm/functions.py:79-80 | a key without `:` keeps its value when no later key cleans to it |
| Functions.CleanedCollision | caiosm/functions.py:77-80 | `{ab: 1, a:b: 2}` cleans to `{ab: 2}`: a plain key can be overwritten |
| Functions.CleanedClean | caiosm/functions.py:70-81 | a dictionary whose keys have no `:` comes back unchanged |
| Functions.CleanedIdempotent | caiosm/functions.py:70-81 | cleaning twice is cleaning once |
| Functions.Project | caiosm/functions.py:47-51 | a record has one cell per column: the row's value under it, or empty when it is absent |
| Functions.ProjectIgnoresExtra | caiosm/functions.py:47-48 | rows that agree on the columns give the same record; other keys are ignored |
| Functions.WriteDictToCsv | caiosm/functions.py:38-55 | the header record is the column list, then one projected record per entry, in order |
| Classifier.ChosenSymbol | caiosm/osmium_handler.py:192-224 | no symbol tag is chosen exactly when none of the three is present; `osmc:symbol` wins when present |
| Classifier.Segni | caiosm/osmium_handler.py:190-226 | the code is one of 001-004; 001 with no symbol tag; never 001 from `osmc:symbol`; 004 only with `;`, 002 only without |
| Classifier.SegniCases | caiosm/osmium_handler.py:192-226 | each code is characterised by the chosen tag's red/white marker, its `;` and its unmarked wording |
| Classifier.SegniOsmcFirst | caiosm/osmium_handler.py:195-203 | with `osmc:symbol` present, `symbol` and `symbol:it` do not matter |
| Classifier.Rename | caiosm/osmium_handler.py:184-189 | the six Infomont fields in `ROUTE_FIELD` order, each holding its source tag's value or `''` |
| Classifier.RouteProperties | caiosm/osmium_handler.py:183-228 | in Infomont mode exactly the six renamed fields then `segni`; otherwise the route's tags unchanged |
| Classifier.RenameMissing | caiosm/osmium_handler.py:185-189 | a missing source tag gives `''`, a present one its value |
| Classifier.Tipologia | caiosm/osmium_handler.py:248-260 | each code exactly for its list: 99 for no highway or an "other" way, 01 for the asphalt list, 03 for footway, path and bridleway, 02 for track; absent exactly for an unlisted highway |
| Classifier.SurfaceCode | caiosm/osmium_handler.py:263-276 | each code exactly for its list: 01 asphalt, 02 offroad, 03 concrete, 00 the other surfaces; `''` exactly for an unlisted surface |
| Classifier.HighwaySurfaceCode | caiosm/osmium_handler.py:277-294 | 00 exactly for via_ferrata; a footway gives 01 with a `footway` or `sidewalk` key, else 02; path, track and bridleway give 02; the asphalt list and the other "other" ways give 01; `''` exactly for no highway or an unlisted one |
| Classifier.Caratter | caiosm/osmium_handler.py:263-294 | a present surface alone decides; otherwise the highway does |
| Classifier.ViaFerrataBeforeOthers | caiosm/osmium_handler.py:278-292 | without a surface, `via_ferrata` gives 00 and the other "other" ways give 01 |
| Classifier.WayProperties | caiosm/osmium_handler.py:240-297 | in Infomont mode `osm_id_way`, then `TIPOLOGIA` when there is one, then `CARATTER`; otherwise the way's tags |
| Classifier.PathOnGravel | caiosm/osmium_handler.py:254-268 | a path on gravel has path type 03 and surface code 02 |
| Osm.TagDictGet | caiosm/osmium_handler.py:97-99 | after the tag loop a key holds its last tag's value, or what it held before |
| Osm.StoreTags | caiosm/osmium_handler.py:97-99 | the tag loop builds the dictionary `TagDictGet` characterises: each key its last tag's value |
| Osm.CollectWayRefs | caiosm/osmium_handler.py:104-108 | the member loop collects the way references `WayRefsMembers` characterises |
| Osm.WayRefsMembers | caiosm/osmium_handler.py:104-108 | a way id is listed exactly when a member of type `w` refers to it |
| Osm.WayRefsAppend | caiosm/osmium_handler.py:106-108 | the way members of two lists are those of each, in order |
| HandlerSpec.RelationTags | caiosm/osmium_handler.py:109-111 | the stored tags hold the relation's id under `id`, overriding an `id` tag |
| HandlerSpec.WayTagsGet | caiosm/osmium_handler.py:97-100 | a way's stored tag is its last tag of that key; `id` is the way id unless a tag overrides it |
| HandlerSpec.LinkWaysKeys | caiosm/osmium_handler.py:175-176 | linking a route never adds or removes a membership entry |
| HandlerSpec.LinkWaysOk | caiosm/osmium_handler.py:175-177 | one route's members link without error exactly when every member way has a geometry |
| HandlerSpec.LinkWaysLines | caiosm/osmium_handler.py:175-177 | the route's lines are its member ways' lines, in member order |
| HandlerSpec.LinkWaysMember | caiosm/osmium_handler.py:175-176 | `members[w]` gains the route id once for each time `w` is a member |
| HandlerSpec.RoutesPassKeys | caiosm/osmium_handler.py:173-176 | the pass over the routes keeps the membership keys |
| HandlerSpec.RoutesPassOk | caiosm/osmium_handler.py:173-177 | the pass completes exactly when every member of every route has a geometry |
| HandlerSpec.RoutesPassGeoms | caiosm/osmium_handler.py:173-179 | each completed route gets its members' lines, in order |
| HandlerSpec.RoutesPassMember | caiosm/osmium_handler.py:173-176 | `members[w]` ends as its old list plus each route once per occurrence of `w`, routes in order |
| HandlerSpec.RefsMember | caiosm/osmium_handler.py:173-176 | a route id in a way's membership list is a route that lists that way |
| HandlerSpec.SetGeomsAt | caiosm/osmium_handler.py:179 | only the geometry of the completed routes changes; keys, tags and members stay |
| HandlerSpec.RouteFeatures | caiosm/osmium_handler.py:178-230 | one feature per completed route: its lines and its properties |
| HandlerSpec.TallyRouteSpec | caiosm/osmium_handler.py:150-156 | for one route, the ways measured are its members not measured before, each once, and all have a geometry |
| HandlerSpec.TallySeen | caiosm/osmium_handler.py:147-156 | across one call no way id is measured twice, and the measured list is the routes' parts in order |
| HandlerSpec.TallyParts | caiosm/osmium_handler.py:150-156 | each route measures only its own members |
| HandlerSpec.TallyOk | caiosm/osmium_handler.py:150-156 | the call completes exactly when every member has a geometry; then every member has been measured |
| HandlerSpec.WayFeaturesSpec | caiosm/osmium_handler.py:234-300 | way features are built exactly when every way has a geometry: one per way, in order, with its properties; otherwise KeyError |
| HandlerSpec.FeatureEdges | caiosm/osmium_handler.py:414-419 | a feature's edges are built exactly when it has `IDTrat` and an integer `osm_id_way` with a membership list |
| HandlerSpec.Edges | caiosm/osmium_handler.py:416-419 | one edge per route of the way |
| HandlerSpec.MemberEdgesSpec | caiosm/osmium_handler.py:412-420 | edges are built exactly when every feature's are (otherwise KeyError); their number is the total of the membership lists; route `j` of feature `i` gives the edge at `EdgeStart(i) + j`, so the edges follow feature order, then membership order |
| HandlerSpec.MemberEdgesAt | caiosm/osmium_handler.py:412-420 | the edge at `EdgeStart(i) + j` has feature `i`'s geometry, route `j` of `members[osm_id_way]` as `IDPerc` and the feature's `IDTrat` as `IDtrat` |
| HandlerSpec.AddKeysSpec | caiosm/osmium_handler.py:127-129 | existing fields stay in place; exactly the new keys are appended, as `str` |
| HandlerSpec.SchemaIsUnion | caiosm/osmium_handler.py:124-137 | the guard comparing key sets changes nothing: the schema is the ordered union of the keys |
| HandlerSpec.UnionSpec | caiosm/osmium_handler.py:124-137 | the schema has distinct keys, all `str`, and holds exactly the keys of some dictionary |
| HandlerSpec.MembersCsvIsEdges | caiosm/osmium_handler.py:396-403 | the membership CSV fails exactly when the edges fail; otherwise it is the header then one line per edge |
| HandlerSpec.MembersCsvNeverWritten | caiosm/osmium_handler.py:396-397 | as written, the loop header raises TypeError whatever the features |
| HandlerSpec.InfomontRouteSchemaFits | caiosm/osmium_handler.py:77-83 | an Infomont route feature has exactly the route schema's fields |
| HandlerSpec.InfomontWaySchemaCovers | caiosm/osmium_handler.py:84-87 | an Infomont way feature has the way schema's first three fields, less `TIPOLOGIA` when there is none |
| HandlerSpec.MemberSchemaFits | caiosm/osmium_handler.py:73-75 | each membership edge has exactly the members schema's fields |
| RoutesHandler.CaiRoutesHandler.constructor | caiosm/osmium_handler.py:54-87 | empty stores, count 0, and the route and way schemas with Infomont fields only in Infomont mode |
| RoutesHandler.CaiRoutesHandler.Way | caiosm/osmium_handler.py:89-100 | resets the way's membership list and replaces its record: geometry when it could be built, and its tags even when not |
| RoutesHandler.CaiRoutesHandler.Relation | caiosm/osmium_handler.py:102-113 | replaces the route's record (its `w` members in order, its tags with `id`) and increments `count` |
| RoutesHandler.CaiRoutesHandler.CreateSchema | caiosm/osmium_handler.py:115-137 | the requested schema's fields become the ordered union of the stored tag keys |
| RoutesHandler.UnionKeys | caiosm/osmium_handler.py:121-137 | the loops compute the schema function |
| RoutesHandler.CaiRoutesHandler.LengthParts | caiosm/osmium_handler.py:140-168 | the ways measured for each route; KeyError when a way to measure has no geometry |
| RoutesHandler.CaiRoutesHandler.LinkMembers | caiosm/osmium_handler.py:175-177 | the inner loop for one route, as the linking function, keeping the membership keys |
| RoutesHandler.CaiRoutesHandler.CreateRoutesGeojson | caiosm/osmium_handler.py:171-230 | the membership lists, route geometries and appended features are those of the pass; KeyError where it stops |
| RoutesHandler.CaiRoutesHandler.CreateWayGeojson | caiosm/osmium_handler.py:232-303 | `wjson` becomes the way features, split in Infomont mode; on KeyError `wjson` is unchanged |
| RoutesHandler.CaiRoutesHandler.WriteRelationMembersInfomontGeo | caiosm/osmium_handler.py:408-420 | returns the membership edges |
| RoutesHandler.CaiRoutesHandler.WriteRelationMembersInfomont | caiosm/osmium_handler.py:390-406 | the CSV text, iterating over the way features: the header and one line per membership edge |
| RoutesHandler.CaiRoutesHandler.WriteRelationsInfomont | caiosm/osmium_handler.py:422-429 | the route columns, then one projected record per route |
| RoutesHandler.CaiRoutesHandler.SelectSchema | caiosm/osmium_handler.py:318-330 | route and way recompute their schema outside Infomont mode; members uses the fixed one; any other type raises ValueError |
| StatsHandler.KeptSpec | caiosm/osmium_handler.py:443-454 | a changeset is kept exactly when it is wanted (user, then comment text); never more than the stream |
| StatsHandler.HasCaiScale | caiosm/osmium_handler.py:478-480 | the tags include `cai_scale` exactly when some tag has that key |
| StatsHandler.RouteKept | caiosm/osmium_handler.py:486-487 | storing a CAI route under its id keeps every stored route a CAI route under its own id |
| StatsHandler.CaiStatsHandler.constructor | caiosm/osmium_handler.py:434-441 | no filters and empty stores |
| StatsHandler.CaiStatsHandler.Changeset | caiosm/osmium_handler.py:443-454 | appends the changeset exactly when it is wanted; nothing else changes |
| StatsHandler.CaiStatsHandler.SetVariables | caiosm/osmium_handler.py:456-463 | sets the comment text and the user |
| StatsHandler.CaiStatsHandler.Way | caiosm/osmium_handler.py:466-471 | stores the way's line when it could be built, replacing only that entry |
| StatsHandler.CaiStatsHandler.Relation | caiosm/osmium_handler.py:473-489 | records every relation; stores a CAI route by an accepted author with its tags and `w` members, and nothing otherwise |
| Strings.StripSpec | caiosm/data_from_overpass.py:185 | `strip()` keeps a slice: only whitespace is removed, at both ends, all of it |
| Strings.SplitLinesSpec | caiosm/data_from_overpass.py:179 | no line from `splitlines()` holds a line boundary |
| Strings.SplitLinesCons | caiosm/data_from_overpass.py:179 | a line followed by `\n` is the first line of the rest |
| Strings.JoinSplit | caiosm/data_from_overpass.py:184 | joining the fields of a split with the separator gives back the text |
| OverpassSpec.InitBbox | caiosm/data_from_overpass.py:31-35 | the box is kept unless swapping was asked; swapping fails with AttributeError on no box and IndexError on fewer than four fields |
| OverpassSpec.InitBboxRoundTrip | caiosm/data_from_overpass.py:32-33 | a swapped four-field box swaps back to the caller's box |
| OverpassSpec.BodyInRequests | caiosm/data_from_overpass.py:66-71 | the CSV, XML and JSON requests all carry the same area line and query |
| OverpassSpec.AreaPrecedence | caiosm/data_from_overpass.py:73-78 | with an area the box plays no part, the area is declared, and the query is bounded by `area.a` |
| OverpassSpec.BboxScope | caiosm/data_from_overpass.py:79-88 | without an area there is no area line, and the query is bounded by the box, or by nothing |
| OverpassSpec.SlotInQuery | caiosm/data_from_overpass.py:248-254 | every query except the single-code one is bounded by the slot it is given |
| OverpassSpec.NetworkFilter | caiosm/data_from_overpass.py:72-78 | route queries carry the `check_network` filter; the office query ignores the network |
| OverpassSpec.TagsOfSpec | caiosm/data_from_overpass.py:155-167 | succeeds exactly when every relation has tags and `type`, else KeyError; returns exactly the CAI routes' tags |
| OverpassSpec.RouteTagsShape | caiosm/data_from_overpass.py:161-163 | a kept tag dictionary is a route with `cai_scale`, and its `id` is the element's |
| OverpassSpec.WikiCells | caiosm/data_from_overpass.py:184-190 | one cell per field |
| OverpassSpec.WikiCellsAt | caiosm/data_from_overpass.py:184-190 | each cell is its field stripped, the third wrapped |
| OverpassSpec.WikiRowSpec | caiosm/data_from_overpass.py:181-192 | a row is the stripped fields, the third wrapped as a BrowseRelation link, then two empty cells |
| OverpassSpec.TableRows | caiosm/data_from_overpass.py:179-192 | one row per line |
| OverpassSpec.InsertPerm | caiosm/data_from_overpass.py:198 | inserting a row adds exactly that row |
| OverpassSpec.InsertSorted | caiosm/data_from_overpass.py:198 | inserting into sorted rows keeps them sorted |
| OverpassSpec.SortRowsSpec | caiosm/data_from_overpass.py:198 | the rows sorted by their first cell are sorted and a permutation of the table |
| OverpassSpec.Delimited | caiosm/data_from_overpass.py:203-206 | each cell is printed after the cell delimiter |
| OverpassSpec.WikiShownRows | caiosm/data_from_overpass.py:197-208 | as written: printed rows are sorted; with the header flag the row left out is one with a least first cell; all others are printed |
| OverpassSpec.WikiHeaderRowShown | caiosm/data_from_overpass.py:197-201 | as written: for a header line `ref`, `name`, `@id` above a route line `1`, `A`, `10` the route is dropped and the header line printed |
| OverpassSpec.WikiTextIntendedRows | caiosm/data_from_overpass.py:197-201 | with the header line dropped before sorting, exactly the other lines' rows are printed, sorted |
| OverpassSpec.FormatOfSpec | caiosm/data_from_overpass.py:218-235 | each format is chosen by exactly its own name; any other name raises ValueError |
| Overpass.CaiOsmData.constructor | caiosm/data_from_overpass.py:31-38 | the fields as given, with no header requested yet |
| Overpass.CaiOsmData.Create | caiosm/data_from_overpass.py:19-35 | a subclass's construction: the source-ref kinds drop the box (and the single-code one the area); the box is settled as `InitBbox` says |
| Overpass.CaiOsmData.FillQuery | caiosm/data_from_overpass.py:72-88 | the area line and query of the area, box or empty branch |
| Overpass.CaiOsmData.GetDataCsv | caiosm/data_from_overpass.py:57-90 | once the header flag is set it stays set; the request names the columns, the flag and the separator |
| Overpass.CaiOsmData.GetDataOsm | caiosm/data_from_overpass.py:93-119 | the XML request of the chosen branch |
| Overpass.CaiOsmData.GetDataJson | caiosm/data_from_overpass.py:122-147 | the JSON request of the chosen branch |
| Overpass.CaiOsmData.GetTagsJson | caiosm/data_from_overpass.py:150-167 | the loop computes the tag filter, KeyError included |
| Overpass.CaiOsmData.WikiTable | caiosm/data_from_overpass.py:170-210 | the text is the header, the shown sorted rows and the footer; ValueError on an empty separator |
| Overpass.CaiOsmData.Write | caiosm/data_from_overpass.py:212-235 | the format dispatch, ValueError for an unknown name |
| Overpass.MakeRow | caiosm/data_from_overpass.py:182-191 | the inner loop builds the row `WikiRowSpec` characterises |
| Overpass.Render | caiosm/data_from_overpass.py:194-207 | the heading, then one block per sorted row, the first row skipped under the header flag |
| Overpass.ShownStep | caiosm/data_from_overpass.py:198-201 | the first sorted row is skipped under the header flag and every other row printed |

## Left out

- Geometry is an opaque token. WKT loading, Shapely line building, pyproj
  reprojection and the floating-point length sum and rounding are not
  modelled. `length` is modelled as the ways it measures per route
  (`LengthParts`); its number is not.
- The splitter `split_at_intersection` is not part of this model.
  `CreateWayGeojson` takes it as a function parameter.
- fiona/OGR writing in `write_geojson` is not modelled. That covers the
  retry that pads missing fields, the `.cpg` file, reprojection, and the
  call to `create_routes_geojson`/`create_way_geojson` when the lists are
  empty. Only the `typ` check and the schema selection are modelled
  (`SelectSchema`).
- File output is not modelled. `WriteDictToCSV` returns its records: CSV
  quoting and its IOError message are left out. The membership exports and
  `write` return their text or format and write no file.
- The HTTP exchange in `_get_data` and the JSON parsing of answers are left
  out. Request methods return the request text. `get_tags_json` and
  `wiki_table` take the answer (the elements, the CSV text) as an argument.
- `write` for `geojson` uses an undefined `fi` (caiosm/data_from_overpass.py:231).
  `get_length` calls a method on `None` (caiosm/data_from_overpass.py:262-263).
  `CaiOsmOffice.get_geojson` uses an undefined `network`. None of these is
  modelled.
- `get_cairoutehandler`, `get_list_codes` and the osmium file runner are
  not modelled. Neither are the console messages: the debug output, the
  message about a way without `highway`, and the error message `way`
  prints whenever a way's geometry cannot be built
  (caiosm/osmium_handler.py:96). The model keeps the state those branches
  leave.
- The elements' tag dictionaries are treated as values. `get_tags_json`
  adding `id` into the answer's own dictionary (aliasing) is not captured.
- Overpass.CaiOsmData.Create: the subclasses' defaults (area `Italia`,
  separator `|`) are arguments the caller passes.
- OverpassSpec.QueryText: the single-code query puts the `source:ref` code
  into the text as it is. The format step that would read a brace in the
  code is not modelled.
- OverpassSpec.SortRowsSpec: stability is not stated as a lemma. `Insert`
  places a row after every row with an equal first cell, as Python's stable
  `sorted` does, so the order of equal keys matches by construction only.

## Findings

| source | as written | input that shows it | evidently intended | confidence | as-written member | corrected member |
|---|---|---|---|---|---|---|
| caiosm/osmium_handler.py:397 | `for feat in self.wjson['features']` subscripts a list with a string, so it raises TypeError before any line is written | any handler, with `wjson` a list of way features (it is assigned a list at line 303) | iterate over `self.wjson`, as `write_relation_members_infomont_geo` does at line 413 | high (not executed) | HandlerSpec.MembersCsvNeverWritten | HandlerSpec.MembersCsvIsEdges |
| caiosm/data_from_overpass.py:198-201 | with the header flag set, the first row after sorting by the first cell is skipped, not the CSV header line | the answer whose lines are the fields `ref`, `name`, `@id` and then `1`, `A`, `10`, with the flag set: `1` sorts before `ref`, so the route row is dropped and the header row is printed | drop the header line before sorting and print every other row, sorted | high (not executed) | OverpassSpec.WikiHeaderRowShown | OverpassSpec.WikiTextIntendedRows |
