/**
 Projection of the parsed source document down to two fields per record,
 with the exceptions Python raises on documents of another shape.
 */
module Projection {

  import opened Base
  import opened JsonValue

  const IdKey := "patient_id"
  const NameKey := "patient_name"

  /** The record written for one source element. */
  datatype Summary = Summary(patientId: Json, patientName: Json)

  /** The JSON object a summary is serialised from. */
  function Encode(s: Summary): Json
  {
    Object(map[IdKey := s.patientId, NameKey := s.patientName])
  }

  /** The JSON array of summaries, in order. */
  function EncodeAll(ss: seq<Summary>): (j: Json)
    ensures j.Array? && |j.items| == |ss|
    ensures forall i :: 0 <= i < |ss| ==> j.items[i] == Encode(ss[i])
  {
    Array(seq(|ss|, i requires 0 <= i < |ss| => Encode(ss[i])))
  }

  /**
   `output` is the projection of the dict `item`: it holds exactly the two
   keys, each bound to the item's value for it, or to null when the item lacks
   it. No other key of the item appears.
   */
  predicate ProjectedFrom(output: Json, item: map<string, Json>)
  {
    && output.Object?
    && output.fields.Keys == {IdKey, NameKey}
    && forall k :: k in output.fields ==> output.fields[k] == (if k in item then item[k] else Null)
  }

  /** Element `i` is the first one that is not a dict. */
  predicate FirstNonObject(items: seq<Json>, i: int)
  {
    && 0 <= i < |items|
    && !items[i].Object?
    && forall j :: 0 <= j < i ==> items[j].Object?
  }

  /**
   One loop iteration: a new record holding the item's `patient_id` and
   `patient_name`, each read with `.get`. Only a dict has `.get`.
   */
  function ProjectItem(item: Json): (r: Result<Summary, Error>)
    ensures r.Success? <==> item.Object?
    ensures r.Success? ==> item.Object? && ProjectedFrom(Encode(r.value), item.fields)
    ensures r.Failure? ==> r.error == AttributeError(TypeName(item))
  {
    match item
    case Object(fields) => Success(Summary(Get(fields, IdKey), Get(fields, NameKey)))
    case _ => Failure(AttributeError(TypeName(item)))
  }

  /**
   The loop over a parsed list: element i of the result is the projection of
   element i of the list, and the first element that is not a dict stops the
   loop with its exception.
   */
  function ProjectItems(items: seq<Json>): (r: Result<seq<Summary>, Error>)
    ensures r.Success? <==> forall i :: 0 <= i < |items| ==> items[i].Object?
    ensures r.Success? ==> |r.value| == |items|
    ensures r.Success? ==> forall i :: 0 <= i < |items| ==>
              items[i].Object? && ProjectedFrom(Encode(r.value[i]), items[i].fields)
    ensures r.Failure? ==> exists i :: FirstNonObject(items, i) && r.error == AttributeError(TypeName(items[i]))
  {
    if items == [] then Success([])
    else
      match ProjectItem(items[0])
      case Failure(e) =>
        assert FirstNonObject(items, 0);
        Failure(e)
      case Success(s) =>
        match ProjectItems(items[1..])
        case Failure(e) =>
          var i :| FirstNonObject(items[1..], i) && e == AttributeError(TypeName(items[1..][i]));
          assert FirstNonObject(items, i + 1);
          Failure(e)
        case Success(rest) =>
          assert forall i :: 1 <= i < |items| ==> items[i] == items[1..][i - 1];
          Success([s] + rest)
  }

  /**
   The whole transformation step: `len(data_list)` first, then the loop.
   `len` fails on null, booleans and numbers; iterating a string or a dict
   yields strings, which have no `.get`, so only an empty one gets through.
   */
  function Project(doc: Json): (r: Result<seq<Summary>, Error>)
    ensures r.Success? <==>
              || (doc.Array? && forall i :: 0 <= i < |doc.items| ==> doc.items[i].Object?)
              || doc == String([])
              || doc == Object(map[])
    ensures r.Success? && !doc.Array? ==> r.value == []
    ensures r.Success? && doc.Array? ==> |r.value| == |doc.items|
    ensures r.Success? && doc.Array? ==> forall i :: 0 <= i < |doc.items| ==>
              doc.items[i].Object? && ProjectedFrom(Encode(r.value[i]), doc.items[i].fields)
    ensures (doc.Null? || doc.Bool? || doc.Int? || doc.Float?) ==> r == Failure(TypeError(TypeName(doc)))
    ensures r.Failure? && (doc.String? || doc.Object?) ==> r.error == AttributeError("str")
    ensures r.Failure? && doc.Array? ==>
              exists i :: FirstNonObject(doc.items, i) && r.error == AttributeError(TypeName(doc.items[i]))
  {
    match doc
    case Array(items) => ProjectItems(items)
    case String(s) => if s == [] then Success([]) else Failure(AttributeError("str"))
    case Object(fields) => if fields == map[] then Success([]) else Failure(AttributeError("str"))
    case _ => Failure(TypeError(TypeName(doc)))
  }

  /**
   Reading back what was written gives the same summaries: the written array
   is itself a valid source document and projecting it changes nothing.
   */
  lemma ReprojectEncoded(ss: seq<Summary>)
    ensures Project(EncodeAll(ss)) == Success(ss)
  {
    var doc := EncodeAll(ss);
    var r := Project(doc);
    assert forall i :: 0 <= i < |doc.items| ==> doc.items[i].Object?;
    assert r.Success? && |r.value| == |ss|;
    forall i | 0 <= i < |ss|
      ensures r.value[i] == ss[i]
    {
      var out := Encode(r.value[i]);
      assert ProjectedFrom(out, Encode(ss[i]).fields);
      assert out.fields[IdKey] == ss[i].patientId;
      assert out.fields[NameKey] == ss[i].patientName;
    }
    assert r.value == ss;
  }

  /** Projection is idempotent on everything it accepts. */
  lemma ProjectIdempotent(doc: Json)
    requires Project(doc).Success?
    ensures Project(EncodeAll(Project(doc).value)) == Project(doc)
  {
    ReprojectEncoded(Project(doc).value);
  }
}
