/** `CaiStatsHandler` of caiosm/osmium_handler.py: the handler that collects
    statistics about CAI routes from a file with history — the changesets
    matching a user and a comment, every relation seen, the relations that
    are CAI routes, and the line geometry of every way. */
module StatsHandler {
  import opened Values
  import opened PyDict
  import opened Osm
  import opened Strings
  import HandlerSpec

  /** A stored route: its tag dictionary (with `id`) and its way members. */
  datatype StatsRoute = StatsRoute(tags: Dict<string, Val>, elems: seq<int>)

  /** The changesets the handler keeps: by the chosen user when one is set,
      and whose comment contains the chosen text when one is set. */
  predicate Wanted(user: Option<string>, comment: Option<string>, c: OsmChangeset) {
    (!Truthy(user) || user.value == c.user) && (!Truthy(comment) || Occurs(comment.value, c.comment))
  }

  /** A relation is a CAI route when one of its tags is `cai_scale`; the
      handler stores it unless a user is set and is not its author. */
  predicate Counted(user: Option<string>, r: OsmRelation) {
    (exists i :: 0 <= i < |r.tags| && r.tags[i].0 == "cai_scale") && (!Truthy(user) || user.value == r.user)
  }

  /** The changesets of a stream that the handler keeps, in order. */
  function Kept(user: Option<string>, comment: Option<string>, cs: seq<OsmChangeset>): seq<OsmChangeset> {
    if cs == [] then []
    else Kept(user, comment, cs[..|cs| - 1]) + (if Wanted(user, comment, cs[|cs| - 1]) then [cs[|cs| - 1]] else [])
  }

  /** A changeset is kept exactly when it is in the stream and wanted, and
      the kept changesets are never more than the stream. */
  lemma {:induction false} KeptSpec(user: Option<string>, comment: Option<string>, cs: seq<OsmChangeset>, c: OsmChangeset)
    ensures c in Kept(user, comment, cs) <==> c in cs && Wanted(user, comment, c)
    ensures |Kept(user, comment, cs)| <= |cs|
  {
    if cs != [] {
      var n := |cs| - 1;
      KeptSpec(user, comment, cs[..n], c);
      assert cs == cs[..n] + [cs[n]];
    }
  }

  /** The tags of a relation include `cai_scale` exactly when one of its
      tag pairs has that key. */
  lemma HasCaiScale(r: OsmRelation)
    ensures Has(TagDict([], r.tags), "cai_scale") <==> exists i :: 0 <= i < |r.tags| && r.tags[i].0 == "cai_scale"
  {
    TagDictGet([], r.tags, "cai_scale");
    LastTagSome(r.tags, "cai_scale");
  }

  /** Every stored route is a CAI route stored under its own id. */
  predicate RoutesWellFormed(routes: Dict<int, StatsRoute>) {
    forall i :: 0 <= i < |routes| ==>
      Has(routes[i].1.tags, "cai_scale") && Get(routes[i].1.tags, "id") == Some(Id(routes[i].0))
  }

  class CaiStatsHandler {
    var comment: Option<string>
    var user: Option<string>
    var rels: seq<OsmRelation>
    var routes: Dict<int, StatsRoute>
    var ways: Dict<int, Line>
    var changes: seq<OsmChangeset>

    /** The dictionaries have distinct keys and hold only CAI routes. */
    ghost predicate Valid()
      reads this
    {
      DistinctKeys(routes) && DistinctKeys(ways) && RoutesWellFormed(routes)
    }

    constructor ()
      ensures Valid()
      ensures comment == None && user == None
      ensures rels == [] && routes == [] && ways == [] && changes == []
    {
      comment := None;
      user := None;
      rels := [];
      routes := [];
      ways := [];
      changes := [];
    }

    /** `changeset`: the changeset is appended when it is wanted. */
    method Changeset(c: OsmChangeset)
      modifies this
      ensures changes == old(changes) + (if Wanted(user, comment, c) then [c] else [])
      ensures comment == old(comment) && user == old(user)
      ensures rels == old(rels) && routes == old(routes) && ways == old(ways)
    {
      if Truthy(user) {
        if user.value == c.user && !Truthy(comment) {
          changes := changes + [c];
        } else if user.value == c.user && Truthy(comment) {
          if Occurs(comment.value, c.comment) {
            changes := changes + [c];
          }
        }
      } else if Truthy(comment) {
        if Occurs(comment.value, c.comment) {
          changes := changes + [c];
        }
      } else {
        changes := changes + [c];
      }
    }

    /** `set_variables`: the text to search in comments and the user. */
    method SetVariables(comment: Option<string>, user: Option<string>)
      modifies this
      ensures this.comment == comment && this.user == user
      ensures rels == old(rels) && routes == old(routes) && ways == old(ways) && changes == old(changes)
    {
      this.comment := comment;
      this.user := user;
    }

    /** `way`: the line geometry stored under the way id when it could be
        built; otherwise nothing changes. */
    method Way(w: OsmWay)
      requires Valid()
      modifies this
      ensures Valid()
      ensures ways == if w.line.Some? then Put(old(ways), w.id, w.line.value) else old(ways)
      ensures Get(ways, w.id) == if w.line.Some? then w.line else Get(old(ways), w.id)
      ensures forall k :: k != w.id ==> Get(ways, k) == Get(old(ways), k)
      ensures rels == old(rels) && routes == old(routes) && changes == old(changes)
      ensures comment == old(comment) && user == old(user)
    {
      if w.line.Some? {
        PutDistinct(ways, w.id, w.line.value);
        forall k | k != w.id ensures Get(Put(ways, w.id, w.line.value), k) == Get(ways, k) {
          PutGet(ways, w.id, w.line.value, k);
        }
        PutGet(ways, w.id, w.line.value, w.id);
        ways := Put(ways, w.id, w.line.value);
      }
    }

    /** `relation`: every relation is recorded; a CAI route by an accepted
        author is stored with its tags (plus `id`) and its way members. */
    method Relation(r: OsmRelation)
      requires Valid()
      modifies this
      ensures Valid()
      ensures rels == old(rels) + [r]
      ensures routes == if Counted(user, r)
                        then Put(old(routes), r.id, StatsRoute(HandlerSpec.RelationTags(r), WayRefs(r.members)))
                        else old(routes)
      ensures ways == old(ways) && changes == old(changes) && comment == old(comment) && user == old(user)
    {
      rels := rels + [r];
      var tags := StoreTags([], r.tags);
      HasCaiScale(r);
      if !Has(tags, "cai_scale") {
        return;
      }
      if Truthy(user) && user.value != r.user {
        return;
      }
      var members := CollectWayRefs(r.members);
      tags := Put(tags, "id", Id(r.id));
      var route := StatsRoute(tags, members);
      RouteKept(routes, r);
      routes := Put(routes, r.id, route);
    }
  }

  /** Storing a CAI route under its id keeps the routes well formed. */
  lemma RouteKept(routes: Dict<int, StatsRoute>, r: OsmRelation)
    requires DistinctKeys(routes) && RoutesWellFormed(routes)
    requires Has(TagDict([], r.tags), "cai_scale")
    ensures var rs := Put(routes, r.id, StatsRoute(HandlerSpec.RelationTags(r), WayRefs(r.members)));
      DistinctKeys(rs) && RoutesWellFormed(rs)
  {
    var t := TagDict([], r.tags);
    var rec := StatsRoute(HandlerSpec.RelationTags(r), WayRefs(r.members));
    PutDistinct(routes, r.id, rec);
    PutGet(t, "id", Id(r.id), "cai_scale");
    var rs := Put(routes, r.id, rec);
    forall i | 0 <= i < |rs|
      ensures Has(rs[i].1.tags, "cai_scale") && Get(rs[i].1.tags, "id") == Some(Id(rs[i].0))
    {
      PutEntry(routes, r.id, rec, i);
    }
  }
}
