/** The handle-dispute composite service: it checks a dispute payload for its
    required fields and acknowledges it. */
module Dispute {
  import opened Wrappers
  import opened Json
  import opened Strings

  /** The fields a dispute must carry, in the order they are reported. */
  const RequiredFields := ["matchId", "raisedBy", "reason", "evidenceUrl"]

  /** Python's `field in payload` for a JSON payload: a key of an object, an
      element of a list, a piece of a string; numbers, booleans and None
      support no membership test, which raises (None). */
  function In(field: string, payload: Value): (r: Option<bool>)
    ensures r.None? <==> payload.Null? || payload.Bool? || payload.Int?
    ensures payload.Obj? ==> r == Some(field in payload.fields)
  {
    match payload
    case Obj(fields) => Some(field in fields)
    case Arr(items) => Some(Str(field) in items)
    case Str(s) => Some(IsInfix(field, s))
    case _ => None
  }

  /** The required fields the payload lacks, in their listed order. */
  function MissingFields(fields: seq<string>, payload: Value): (r: seq<string>)
    requires !payload.Null? && !payload.Bool? && !payload.Int?
    ensures forall f :: f in r <==> f in fields && In(f, payload) == Some(false)
    ensures |r| <= |fields|
    ensures NoDup(fields) ==> NoDup(r)
    ensures Subsequence(r, fields)
  {
    if fields == [] then []
    else
      var rest := MissingFields(fields[1..], payload);
      if In(fields[0], payload) == Some(false) then [fields[0]] + rest else rest
  }

  /** The error text for the missing fields. */
  function MissingMessage(missing: seq<string>): string
  {
    "Missing fields: " + Join(missing, ", ")
  }

  datatype DisputeOutcome =
    | NoPayload
    | FieldsMissing(message: string)
    | Received(payload: Value)
    | DisputeError
  {
    function Status(): int
    {
      match this
      case NoPayload => 400
      case FieldsMissing(_) => 400
      case Received(_) => 200
      case DisputeError => 500
    }
  }

  /** dispute_new on a decoded payload. A membership test that raises is
      caught and answered with 500. */
  function DisputeNew(payload: Value): (r: DisputeOutcome)
    ensures r.NoPayload? <==> !Truthy(payload)
    ensures r.DisputeError? <==> Truthy(payload) && In(RequiredFields[0], payload).None?
    ensures r.Received? ==> r.payload == payload && forall f :: f in RequiredFields ==> In(f, payload) == Some(true)
    ensures r.FieldsMissing? ==>
              exists f :: f in RequiredFields && In(f, payload) == Some(false) && IsInfix(f, r.message)
  {
    if !Truthy(payload) then NoPayload
    else if In(RequiredFields[0], payload).None? then DisputeError
    else
      var missing := MissingFields(RequiredFields, payload);
      if missing != [] then
        JoinNamesEveryPart(missing, ", ");
        assert missing[0] in missing;
        InfixOfSuffix(missing[0], "Missing fields: ", Join(missing, ", "));
        FieldsMissing(MissingMessage(missing))
      else Received(payload)
  }

  /** For an object payload the dispute is acknowledged exactly when all
      four fields are present, and otherwise the message names each field
      that is absent. */
  lemma ObjectPayload(fields: map<string, Value>)
    requires fields != map[]
    ensures DisputeNew(Obj(fields)).Received? <==> forall f :: f in RequiredFields ==> f in fields
    ensures DisputeNew(Obj(fields)).FieldsMissing? ==>
              forall f :: f in RequiredFields && f !in fields ==> IsInfix(f, DisputeNew(Obj(fields)).message)
  {
    var missing := MissingFields(RequiredFields, Obj(fields));
    if missing != [] {
      JoinNamesEveryPart(missing, ", ");
      forall f | f in RequiredFields && f !in fields ensures IsInfix(f, MissingMessage(missing)) {
        assert f in missing;
        var i :| 0 <= i < |missing| && missing[i] == f;
        InfixOfSuffix(f, "Missing fields: ", Join(missing, ", "));
      }
    }
  }

  /** The message for a payload that lacks only the evidence link. */
  lemma OnlyEvidenceMissing()
    ensures DisputeNew(Obj(map["matchId" := Str("m1"), "raisedBy" := Str("p1"), "reason" := Str("late")]))
              == FieldsMissing("Missing fields: " + "evidenceUrl")
  {
    var p := Obj(map["matchId" := Str("m1"), "raisedBy" := Str("p1"), "reason" := Str("late")]);
    var last: seq<string> := ["evidenceUrl"];
    assert "matchId" in p.fields;
    assert Truthy(p) && In(RequiredFields[0], p) == Some(true);
    OnlyEvidenceFields(p);
    MissingOutcome(p);
    assert Join(last, ", ") == "evidenceUrl";
  }

  /** A payload that supports membership and lacks some fields is answered
      with the message naming them. */
  lemma MissingOutcome(payload: Value)
    requires Truthy(payload) && In(RequiredFields[0], payload).Some?
    requires MissingFields(RequiredFields, payload) != []
    ensures DisputeNew(payload) == FieldsMissing(MissingMessage(MissingFields(RequiredFields, payload)))
  {
  }

  lemma OnlyEvidenceFields(p: Value)
    requires p == Obj(map["matchId" := Str("m1"), "raisedBy" := Str("p1"), "reason" := Str("late")])
    ensures MissingFields(RequiredFields, p) == ["evidenceUrl"]
  {
    var last: seq<string> := ["evidenceUrl"];
    assert last[1..] == [];
    assert MissingFields(last, p) == last;
    var two: seq<string> := ["reason", "evidenceUrl"];
    assert two[1..] == last;
    assert MissingFields(two, p) == last;
    var three: seq<string> := ["raisedBy", "reason", "evidenceUrl"];
    assert three[1..] == two;
    assert MissingFields(three, p) == last;
    assert RequiredFields[1..] == three;
  }
}
