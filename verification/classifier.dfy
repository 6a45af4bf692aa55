/** The Infomont classification of caiosm/osmium_handler.py: the static
    rule tables and the branch logic that maps raw OSM tags to the fixed
    codes of the Infomont trail cadastre (route field renaming, the `segni`
    waymark code, the `TIPOLOGIA` path type and the `CARATTER` surface). */
module Classifier {
  import opened Values
  import opened PyDict
  import opened Strings

  /** Columns of the route CSV export. */
  const RouteColumns: seq<string> :=
    ["id", "name", "ref", "cai_scale", "from", "to", "distance",
     "source", "source:ref", "maintainer", "description"]

  // highway classification
  const OthersWays: seq<string> := ["cycleway", "pedestrian", "steps", "via_ferrata"]
  const AsphaltWays: seq<string> :=
    ["primary", "primary_link", "secondary", "secondary_link",
     "tertiary", "tertiary_link", "unclassified", "residential",
     "service", "living_street", "road"]
  const NaturalWays: seq<string> := ["track"]
  const OffroadWays: seq<string> := ["footway", "path", "bridleway"]

  // surface classification
  const AsphaltSurface: seq<string> := ["asphalt", "concrete", "concrete:plates", "paved"]
  const OffroadSurface: seq<string> :=
    ["compacted", "dirt", "grass", "gravel", "ground", "unpaved",
     "fine_gravel", "earth", "rock", "mud", "stone"]
  const ConcreteSurface: seq<string> :=
    ["cobblestone", "cobblestone:flattened", "paving_stones",
     "pebblestone", "sett", "grass_paver", "cement"]
  const OthersSurface: seq<string> := ["metal", "wood", "unknown"]

  /** Infomont route field and the OSM tag it is taken from, in output order. */
  const RouteField: seq<(string, string)> :=
    [("IDPerc", "id"), ("Nume", "ref"), ("Denomi", "name"),
     ("rwn_name", "rwn:name"), ("COD_REI", "ref:REI"), ("PerDif", "cai_scale")]

  /** Every value except the one under "id" is OSM tag text: the handlers
      build their tag dictionaries this way. */
  predicate OsmTagged(tags: Dict<string, Val>) {
    forall i :: 0 <= i < |tags| && tags[i].0 != "id" ==> tags[i].1.Text?
  }

  /** The text of tag `key`, or None when the key is absent. */
  function TagText(tags: Dict<string, Val>, key: string): (r: Option<string>)
    requires OsmTagged(tags) && key != "id"
    ensures r.Some? <==> Has(tags, key)
    ensures r.Some? ==> Get(tags, key) == Some(Text(r.value))
  {
    GetWitness(tags, key);
    var v: Option<Val> := Get(tags, key);
    match v
    case None => None
    case Some(Text(s)) => Some(s)
    case Some(Id(_)) => assert false; None
  }

  /** The symbol tag whose value decides `segni`: `osmc:symbol`, else
      `symbol`, else `symbol:it`. */
  function ChosenSymbol(osmc: Option<string>, symbol: Option<string>, symbolIt: Option<string>): (r: Option<string>)
    ensures r.None? <==> osmc.None? && symbol.None? && symbolIt.None?
    ensures osmc.Some? ==> r == osmc
  {
    if osmc.Some? then osmc else if symbol.Some? then symbol else symbolIt
  }

  /** The `segni` waymark code from the values of `osmc:symbol`, `symbol`
      and `symbol:it` (None when the tag is absent). */
  function Segni(osmc: Option<string>, symbol: Option<string>, symbolIt: Option<string>): (r: string)
    ensures r in ["001", "002", "003", "004"]
    ensures ChosenSymbol(osmc, symbol, symbolIt).None? ==> r == "001"
    ensures osmc.Some? ==> r != "001"
    ensures r == "004" ==> ';' in ChosenSymbol(osmc, symbol, symbolIt).value
    ensures r == "002" ==> ';' !in ChosenSymbol(osmc, symbol, symbolIt).value
  {
    if osmc.None? && symbol.None? && symbolIt.None? then "001"
    else if osmc.Some? then
      var s := osmc.value;
      if Occurs("red:red:white_stripe", s) || Occurs("red:red:white_bar", s) then
        (if ';' in s then "004" else "002")
      else "003"
    else if symbol.Some? then
      var s := symbol.value;
      if Occurs("unmarked", s) then "001"
      else if Occurs("white red flag", s) then
        (if ';' in s then "004" else "002")
      else "003"
    else
      var s := symbolIt.value;
      if Occurs("non segnalato", s) then "001"
      else if Occurs("su bandierina bianca e rossa", s) || Occurs("segnavia bianco e rosso", s) then
        (if ';' in s then "004" else "002")
      else "003"
  }

  /** The red/white marker vocabulary of the chosen symbol tag. */
  predicate RedWhite(osmc: Option<string>, symbol: Option<string>, symbolIt: Option<string>) {
    if osmc.Some? then
      Occurs("red:red:white_stripe", osmc.value) || Occurs("red:red:white_bar", osmc.value)
    else if symbol.Some? then
      !Occurs("unmarked", symbol.value) && Occurs("white red flag", symbol.value)
    else if symbolIt.Some? then
      !Occurs("non segnalato", symbolIt.value) &&
      (Occurs("su bandierina bianca e rossa", symbolIt.value) ||
       Occurs("segnavia bianco e rosso", symbolIt.value))
    else false
  }

  /** The "unmarked" vocabulary of the chosen symbol tag. */
  predicate Unmarked(osmc: Option<string>, symbol: Option<string>, symbolIt: Option<string>) {
    osmc.None? &&
    if symbol.Some? then Occurs("unmarked", symbol.value)
    else symbolIt.Some? && Occurs("non segnalato", symbolIt.value)
  }

  /** The four codes, each characterised by the chosen tag: no symbol tag
      or an "unmarked" value gives 001, a red/white marker gives 004 with
      ';' and 002 without, any other value 003. */
  lemma SegniCases(osmc: Option<string>, symbol: Option<string>, symbolIt: Option<string>)
    ensures var c := ChosenSymbol(osmc, symbol, symbolIt);
            var r := Segni(osmc, symbol, symbolIt);
            && (r == "001" <==> c.None? || Unmarked(osmc, symbol, symbolIt))
            && (r == "002" <==> RedWhite(osmc, symbol, symbolIt) && ';' !in c.value)
            && (r == "004" <==> RedWhite(osmc, symbol, symbolIt) && ';' in c.value)
            && (r == "003" <==> c.Some? && !Unmarked(osmc, symbol, symbolIt) && !RedWhite(osmc, symbol, symbolIt))
  {
  }

  /** When `osmc:symbol` is present the other two tags do not matter. */
  lemma SegniOsmcFirst(osmc: string, s1: Option<string>, i1: Option<string>, s2: Option<string>, i2: Option<string>)
    ensures Segni(Some(osmc), s1, i1) == Segni(Some(osmc), s2, i2)
  {
  }

  /** The `segni` code of a route's tag dictionary. */
  function RouteSegni(tags: Dict<string, Val>): string
    requires OsmTagged(tags)
  {
    Segni(TagText(tags, "osmc:symbol"), TagText(tags, "symbol"), TagText(tags, "symbol:it"))
  }

  /** The six renamed Infomont fields: each takes the value of its source
      tag, or the empty string when the tag is missing. */
  function Rename(tags: Dict<string, Val>): (r: Dict<string, Val>)
    ensures |r| == |RouteField|
    ensures forall i :: 0 <= i < |r| ==> r[i].0 == RouteField[i].0
    ensures forall i :: 0 <= i < |r| ==>
              r[i].1 == (if Has(tags, RouteField[i].1) then Get(tags, RouteField[i].1).value else Text(""))
  {
    seq(|RouteField|, i requires 0 <= i < |RouteField| =>
      var old_ := RouteField[i].1;
      (RouteField[i].0, if Has(tags, old_) then Get(tags, old_).value else Text("")))
  }

  /** The properties of a route feature: in Infomont mode exactly the six
      renamed fields then `segni`, in that order; otherwise the raw tags. */
  function RouteProperties(tags: Dict<string, Val>, infomont: bool): (r: Dict<string, Val>)
    requires OsmTagged(tags)
    ensures !infomont ==> r == tags
    ensures infomont ==> Keys(r) == ["IDPerc", "Nume", "Denomi", "rwn_name", "COD_REI", "PerDif", "segni"]
    ensures infomont ==> r[6].1 == Text(RouteSegni(tags)) && r[..6] == Rename(tags)
  {
    if infomont then Rename(tags) + [("segni", Text(RouteSegni(tags)))] else tags
  }

  /** A source tag that is missing gives the empty string, never an error;
      a present one passes its value through. */
  lemma RenameMissing(tags: Dict<string, Val>, i: nat)
    requires OsmTagged(tags) && i < |RouteField|
    ensures !Has(tags, RouteField[i].1) ==> RouteProperties(tags, true)[i] == (RouteField[i].0, Text(""))
    ensures Has(tags, RouteField[i].1) ==> Some(RouteProperties(tags, true)[i].1) == Get(tags, RouteField[i].1)
  {
    assert RouteProperties(tags, true)[i] == Rename(tags)[i];
  }

  /** The `TIPOLOGIA` path-type code of a `highway` value (None when the way
      has no highway tag); None as result means the field is left out. */
  function Tipologia(highway: Option<string>): (r: Option<string>)
    ensures r.None? <==> highway.Some? && highway.value !in AsphaltWays + OthersWays + OffroadWays + NaturalWays
    ensures r.Some? ==> r.value in ["01", "02", "03", "99"]
    ensures r == Some("99") <==> highway.None? || highway.value in OthersWays
    ensures r == Some("01") <==> highway.Some? && highway.value in AsphaltWays
    ensures r == Some("03") <==> highway.Some? && highway.value in OffroadWays
    ensures r == Some("02") <==> highway.Some? && highway.value in NaturalWays
  {
    if highway.None? then Some("99")
    else if highway.value in AsphaltWays then Some("01")
    else if highway.value in OthersWays then Some("99")
    else if highway.value in OffroadWays then Some("03")
    else if highway.value in NaturalWays then Some("02")
    else None
  }

  /** The `CARATTER` code a `surface` value gives. */
  function SurfaceCode(surface: string): (r: string)
    ensures r in ["00", "01", "02", "03", ""]
    ensures r == "" <==> surface !in AsphaltSurface + OffroadSurface + ConcreteSurface + OthersSurface
    ensures r == "01" <==> surface in AsphaltSurface
    ensures r == "02" <==> surface in OffroadSurface
    ensures r == "03" <==> surface in ConcreteSurface
    ensures r == "00" <==> surface in OthersSurface
  {
    if surface in AsphaltSurface then "01"
    else if surface in OffroadSurface then "02"
    else if surface in ConcreteSurface then "03"
    else if surface in OthersSurface then "00"
    else ""
  }

  /** The `CARATTER` code a `highway` value gives when there is no surface
      tag; `hasFootway`/`hasSidewalk` say whether those keys are tagged. */
  function HighwaySurfaceCode(highway: Option<string>, hasFootway: bool, hasSidewalk: bool): (r: string)
    ensures r in ["00", "01", "02", ""]
    ensures highway == Some("footway") ==> r == (if hasFootway || hasSidewalk then "01" else "02")
    ensures highway.None? ==> r == ""
    ensures r == "00" <==> highway == Some("via_ferrata")
    ensures highway.Some? && highway.value in ["path", "track", "bridleway"] ==> r == "02"
    ensures highway.Some? && highway.value in AsphaltWays ==> r == "01"
    ensures highway.Some? && highway.value in OthersWays && highway.value != "via_ferrata" ==> r == "01"
    ensures r == "" <==> highway.None? || highway.value !in AsphaltWays + OthersWays + OffroadWays + NaturalWays
  {
    if highway == Some("via_ferrata") then "00"
    else if highway == Some("footway") then
      (if hasFootway then "01" else if hasSidewalk then "01" else "02")
    else if highway.Some? && highway.value in ["path", "track", "bridleway"] then "02"
    else if highway.Some? && highway.value in AsphaltWays then "01"
    else if highway.Some? && highway.value in OthersWays then "01"
    else ""
  }

  /** The `CARATTER` code: a present `surface` tag alone decides, otherwise
      it follows `highway`. */
  function Caratter(surface: Option<string>, highway: Option<string>, hasFootway: bool, hasSidewalk: bool): (r: string)
    ensures surface.Some? ==> r == SurfaceCode(surface.value)
    ensures surface.None? ==> r == HighwaySurfaceCode(highway, hasFootway, hasSidewalk)
  {
    if surface.Some? then SurfaceCode(surface.value)
    else HighwaySurfaceCode(highway, hasFootway, hasSidewalk)
  }

  /** `via_ferrata` is an "other" way, but without a surface tag it gives
      00 where the other "other" ways give 01. */
  lemma ViaFerrataBeforeOthers(h: string)
    requires h in OthersWays
    ensures Caratter(None, Some(h), false, false) == (if h == "via_ferrata" then "00" else "01")
  {
  }

  /** The properties of a way feature: in Infomont mode `osm_id_way`, then
      `TIPOLOGIA` when the highway value is classified, then `CARATTER`;
      otherwise the raw tags. */
  function WayProperties(id: int, tags: Dict<string, Val>, infomont: bool): (r: Dict<string, Val>)
    requires OsmTagged(tags)
    ensures !infomont ==> r == tags
    ensures infomont ==> 2 <= |r| <= 3
    ensures infomont ==> r[0] == ("osm_id_way", Id(id)) && r[|r| - 1].0 == "CARATTER"
    ensures infomont ==> (|r| == 3 <==> Tipologia(TagText(tags, "highway")).Some?)
    ensures infomont && |r| == 3 ==> r[1] == ("TIPOLOGIA", Text(Tipologia(TagText(tags, "highway")).value))
    ensures infomont ==> r[|r| - 1].1 == Text(Caratter(TagText(tags, "surface"), TagText(tags, "highway"),
                                                       Has(tags, "footway"), Has(tags, "sidewalk")))
  {
    if infomont then
      var highway := TagText(tags, "highway");
      var tip := Tipologia(highway);
      var car := Caratter(TagText(tags, "surface"), highway, Has(tags, "footway"), Has(tags, "sidewalk"));
      [("osm_id_way", Id(id))] +
      (if tip.Some? then [("TIPOLOGIA", Text(tip.value))] else []) +
      [("CARATTER", Text(car))]
    else tags
  }

  /** A way tagged highway=path, surface=gravel is path type 03 with
      surface 02. */
  lemma PathOnGravel()
    ensures Tipologia(Some("path")) == Some("03")
    ensures Caratter(Some("gravel"), Some("path"), false, false) == "02"
  {
  }
}
