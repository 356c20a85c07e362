/**
 * The request bodies and the local property edits of the Experiment resource
 * (cellengine/resources/experiment.py).  Every call to the API client is
 * outside the model; what is modelled is the data handed to it and the
 * in-place edits of the experiment's `_properties` dictionary.
 */
module ExperimentResource {
  import opened Outcomes

  /** The Python values that reach a request body or `_properties`, as JSON sees them. */
  datatype JsonValue =
    | JNull
    | JBool(b: bool)
    | JInt(i: int)
    | JFloat(f: real)
    | JStr(s: string)
    | JList(items: seq<JsonValue>)

  type Body = map<string, JsonValue>

  /** Python truthiness: None, False, 0, 0.0, "" and [] are false. */
  predicate Truthy(v: JsonValue) {
    match v
    case JNull => false
    case JBool(b) => b
    case JInt(i) => i != 0
    case JFloat(f) => f != 0.0
    case JStr(s) => s != ""
    case JList(items) => items != []
  }

  predicate DistinctKeys(entries: seq<(string, JsonValue)>) {
    forall i, j :: 0 <= i < j < |entries| ==> entries[i].0 != entries[j].0
  }

  /** `{k: v for (k, v) in entries.items() if v}` over a dictionary literal. */
  function KeepTruthy(entries: seq<(string, JsonValue)>): (r: Body)
    requires DistinctKeys(entries)
    ensures forall i :: 0 <= i < |entries| ==> (entries[i].0 in r <==> Truthy(entries[i].1))
    ensures forall i :: 0 <= i < |entries| && Truthy(entries[i].1) ==> r[entries[i].0] == entries[i].1
    ensures forall k :: k in r ==> exists i :: 0 <= i < |entries| && entries[i].0 == k
  {
    if entries == [] then map[]
    else
      var front, (k, v) := entries[..|entries| - 1], entries[|entries| - 1];
      assert forall i :: 0 <= i < |front| ==> front[i] == entries[i];
      var rest := KeepTruthy(front);
      assert forall i :: 0 <= i < |front| ==> front[i].0 != k;
      if Truthy(v) then rest[k := v] else rest
  }

  /** The body `Experiment.create` posts: only the truthy arguments, under their API names. */
  function CreateBody(name: JsonValue, comments: JsonValue, uploader: JsonValue,
                      primaryResearcher: JsonValue, tags: JsonValue): (r: Body)
    ensures r.Keys <= {"name", "comments", "uploader", "primaryResearcher", "tags"}
    ensures ("name" in r <==> Truthy(name)) && ("name" in r ==> r["name"] == name)
    ensures ("comments" in r <==> Truthy(comments)) && ("comments" in r ==> r["comments"] == comments)
    ensures ("uploader" in r <==> Truthy(uploader)) && ("uploader" in r ==> r["uploader"] == uploader)
    ensures ("primaryResearcher" in r <==> Truthy(primaryResearcher)) &&
            ("primaryResearcher" in r ==> r["primaryResearcher"] == primaryResearcher)
    ensures ("tags" in r <==> Truthy(tags)) && ("tags" in r ==> r["tags"] == tags)
    ensures "primary_researcher" !in r
  {
    var entries := [("name", name), ("comments", comments), ("uploader", uploader),
                    ("primaryResearcher", primaryResearcher), ("tags", tags)];
    var r := KeepTruthy(entries);
    assert entries[0].0 == "name" && entries[1].0 == "comments" && entries[2].0 == "uploader";
    assert entries[3].0 == "primaryResearcher" && entries[4].0 == "tags";
    r
  }

  /** Called with every argument left at None, `create` posts an empty body. */
  lemma CreateBodyOfDefaults()
    ensures CreateBody(JNull, JNull, JNull, JNull, JNull) == map[]
  {
    var r := CreateBody(JNull, JNull, JNull, JNull, JNull);
    assert forall k :: k !in r;
  }

  /**
   * `{"name": name} if name else {"_id": _id}`: the keyword arguments of every
   * look-up by name or id.  A truthy name wins, and the two keys never appear together.
   */
  function LookupKwargs(id: JsonValue, name: JsonValue): (r: Body)
    ensures |r| == 1
    ensures "name" in r <==> Truthy(name)
    ensures "_id" in r <==> !Truthy(name)
    ensures "name" in r ==> r["name"] == name
    ensures "_id" in r ==> r["_id"] == id
  {
    if Truthy(name) then map["name" := name] else map["_id" := id]
  }

  function Strings(items: seq<string>): (r: seq<JsonValue>)
    ensures |r| == |items| && forall i :: 0 <= i < |items| ==> r[i] == JStr(items[i])
  {
    if items == [] then [] else [JStr(items[0])] + Strings(items[1..])
  }

  function Floats(items: seq<real>): (r: seq<JsonValue>)
    ensures |r| == |items| && forall i :: 0 <= i < |items| ==> r[i] == JFloat(items[i])
  {
    if items == [] then [] else [JFloat(items[0])] + Floats(items[1..])
  }

  /**
   * The body `create_compensation` posts.  The length of the spill matrix is
   * documented as the channel count squared but is not checked here.
   */
  function CompensationBody(name: string, channels: seq<string>, spillMatrix: seq<real>): (r: Body)
    ensures r.Keys == {"name", "channels", "spillMatrix"}
  {
    map["name" := JStr(name), "channels" := JList(Strings(channels)), "spillMatrix" := JList(Floats(spillMatrix))]
  }

  function StringsOf(items: seq<JsonValue>): (r: Option<seq<string>>)
    ensures r.Some? ==> |r.value| == |items|
  {
    if items == [] then Some([])
    else if !items[0].JStr? then None
    else
      match StringsOf(items[1..])
      case None => None
      case Some(rest) => Some([items[0].s] + rest)
  }

  function FloatsOf(items: seq<JsonValue>): (r: Option<seq<real>>)
    ensures r.Some? ==> |r.value| == |items|
  {
    if items == [] then Some([])
    else if !items[0].JFloat? then None
    else
      match FloatsOf(items[1..])
      case None => None
      case Some(rest) => Some([items[0].f] + rest)
  }

  /** Reads a compensation back out of a posted body. */
  function ReadCompensationBody(body: Body): Option<(string, seq<string>, seq<real>)> {
    if "name" !in body || "channels" !in body || "spillMatrix" !in body then None
    else if !body["name"].JStr? || !body["channels"].JList? || !body["spillMatrix"].JList? then None
    else
      match (StringsOf(body["channels"].items), FloatsOf(body["spillMatrix"].items))
      case (Some(channels), Some(matrix)) => Some((body["name"].s, channels, matrix))
      case _ => None
  }

  lemma {:induction false} StringsRoundTrip(items: seq<string>)
    ensures StringsOf(Strings(items)) == Some(items)
  {
    if items != [] {
      StringsRoundTrip(items[1..]);
      assert Strings(items)[1..] == Strings(items[1..]);
      assert items == [items[0]] + items[1..];
    }
  }

  lemma {:induction false} FloatsRoundTrip(items: seq<real>)
    ensures FloatsOf(Floats(items)) == Some(items)
  {
    if items != [] {
      FloatsRoundTrip(items[1..]);
      assert Floats(items)[1..] == Floats(items[1..]);
      assert items == [items[0]] + items[1..];
    }
  }

  /** The compensation body carries its three arguments unchanged. */
  lemma CompensationBodyRoundTrip(name: string, channels: seq<string>, spillMatrix: seq<real>)
    ensures ReadCompensationBody(CompensationBody(name, channels, spillMatrix)) == Some((name, channels, spillMatrix))
  {
    StringsRoundTrip(channels);
    FloatsRoundTrip(spillMatrix);
  }

  // ------------------------------------------------ edits of `_properties`

  /** `_properties.get("deleted") is not None`: the experiment is scheduled for deletion. */
  predicate MarkedDeleted(props: Body) {
    "deleted" in props && props["deleted"] != JNull
  }

  /** The `delete` body; `today_timestamp()` is passed in as `timestamp`. */
  function AfterDelete(props: Body, confirm: bool, timestamp: string): (r: Body)
    ensures confirm ==> MarkedDeleted(r) && r["deleted"] == JStr(timestamp)
    ensures confirm ==> r.Keys == props.Keys + {"deleted"}
    ensures forall k :: k in props && k != "deleted" ==> k in r && r[k] == props[k]
    ensures !confirm ==> r == props
  {
    if confirm then props["deleted" := JStr(timestamp)] else props
  }

  /** The `undelete` body as written: it assigns the key "delete", not "deleted". */
  function AfterUndelete(props: Body): (r: Body)
    ensures ("deleted" in r <==> "deleted" in props) && ("deleted" in r ==> r["deleted"] == props["deleted"])
    ensures MarkedDeleted(r) <==> MarkedDeleted(props)
    ensures MarkedDeleted(props) ==> r.Keys == props.Keys + {"delete"} && r["delete"] == JNull
    ensures forall k :: k in props && k != "delete" ==> k in r && r[k] == props[k]
    ensures !MarkedDeleted(props) ==> r == props
  {
    if MarkedDeleted(props) then props["delete" := JNull] else props
  }

  /** What `undelete` evidently means to do: clear the "deleted" mark. */
  function UndeleteIntended(props: Body): (r: Body)
    ensures !MarkedDeleted(r)
    ensures r.Keys == props.Keys
    ensures forall k :: k in props && k != "deleted" ==> r[k] == props[k]
    ensures !MarkedDeleted(props) ==> r == props
  {
    if MarkedDeleted(props) then props["deleted" := JNull] else props
  }

  /** Deleting and then undeleting, as written, leaves the experiment scheduled for deletion. */
  lemma UndeleteDoesNotRestore(props: Body, timestamp: string)
    ensures MarkedDeleted(AfterUndelete(AfterDelete(props, true, timestamp)))
    ensures "delete" in AfterUndelete(AfterDelete(props, true, timestamp))
  {
  }

  /** With the intended undelete, deleting and undeleting restores every other entry. */
  lemma DeleteUndeleteIntended(props: Body, timestamp: string)
    ensures var r := UndeleteIntended(AfterDelete(props, true, timestamp));
      !MarkedDeleted(r) && r.Keys == props.Keys + {"deleted"} &&
      forall k :: k in props && k != "deleted" ==> r[k] == props[k]
  {
  }

  /**
   * `delete` is declared as a property, so reading `experiment.delete` runs it
   * with `confirm` at its default False and nothing is marked.
   */
  lemma DeletePropertyIsNoOp(props: Body, timestamp: string)
    ensures AfterDelete(props, false, timestamp) == props
    ensures !MarkedDeleted(props) ==> !MarkedDeleted(AfterDelete(props, false, timestamp))
  {
  }

  /** What the `active_compensation` getter yields. */
  datatype ActiveCompensation =
    | FetchCompensation(experimentId: string, compensationId: string) // a str: fetched by experiment and id
    | CompensationIndex(index: int)             // an int, returned unchanged
    | NoCompensation                            // None
    | InvalidValue(value: JsonValue)            // anything else raises ValueError
    | MissingKey                                // no "activeCompensation" entry raises KeyError

  /**
   * An experiment with its `_properties` dictionary, which the property
   * accessors below edit in place.
   */
  class Experiment {
    const id: string
    var properties: Body

    constructor (id: string, properties: Body)
      ensures this.id == id && this.properties == properties
    {
      this.id := id;
      this.properties := properties;
    }

    method Delete(confirm: bool, timestamp: string)
      modifies this
      ensures properties == AfterDelete(old(properties), confirm, timestamp)
    {
      if confirm {
        properties := properties["deleted" := JStr(timestamp)];
      }
    }

    /**
     * Reading `experiment.delete` as the source declares it: the property
     * runs with `confirm` at False and changes nothing.
     */
    method DeleteAsProperty()
      modifies this
      ensures properties == old(properties)
    {
      Delete(false, "");  // the timestamp is never read when confirm is False
    }

    method Undelete()
      modifies this
      ensures properties == AfterUndelete(old(properties))
    {
      if MarkedDeleted(properties) {
        properties := properties["delete" := JNull];
      }
    }

    /** The `active_compensation` getter; `type(x) is int` is false for a bool. */
    function ActiveCompensation(): (r: ActiveCompensation)
      reads this
      ensures r == MissingKey <==> "activeCompensation" !in properties
      ensures r.FetchCompensation? ==> r.experimentId == id && properties["activeCompensation"] == JStr(r.compensationId)
      ensures r.CompensationIndex? ==> properties["activeCompensation"] == JInt(r.index)
      ensures r == NoCompensation ==> properties["activeCompensation"] == JNull
      ensures r.InvalidValue? <==> ("activeCompensation" in properties &&
        var v := properties["activeCompensation"]; !(v.JStr? || v.JInt? || v.JNull?))
      ensures r.InvalidValue? ==> r.value == properties["activeCompensation"]
    {
      if "activeCompensation" !in properties then MissingKey
      else
        match properties["activeCompensation"]
        case JStr(s) => FetchCompensation(id, s)
        case JInt(i) => CompensationIndex(i)
        case JNull => NoCompensation
        case v => InvalidValue(v)
    }

    /** The `active_compensation` setter: only that entry changes, and the getter reads it back. */
    method SetActiveCompensation(compensation: JsonValue)
      modifies this
      ensures properties == old(properties)["activeCompensation" := compensation]
      ensures compensation.JInt? ==> ActiveCompensation() == CompensationIndex(compensation.i)
      ensures compensation.JStr? ==> ActiveCompensation() == FetchCompensation(id, compensation.s)
      ensures compensation.JNull? ==> ActiveCompensation() == NoCompensation
      ensures compensation.JBool? || compensation.JFloat? || compensation.JList? ==>
        ActiveCompensation() == InvalidValue(compensation)
    {
      properties := properties["activeCompensation" := compensation];
    }
  }
}
