/** The schedule service: one document per tournament round, holding the
    days each team declared itself available. */
module ScheduleService {
  import opened Wrappers
  import opened Json
  import opened Teams

  /** `teamAvailableDays`: for each day, the ids of the teams available that
      day. `order` is the dictionary's key order (insertion order). */
  datatype Availability = Availability(order: seq<string>, lists: map<string, seq<Id>>)
  {
    ghost predicate Wf()
    {
      NoDup(order) && forall d :: d in order <==> d in lists
    }
  }

  const NoAvailability := Availability([], map[])

  /** A stored schedule document; `id` is the store's document id. */
  datatype ScheduleDoc = ScheduleDoc(
    id: string,
    tournament: Object,
    roundNumber: Value,
    dateTime: Value,
    teamAvailableDays: Availability)

  /** The document belongs to tournament `tid`: its nested
      `tournament.tournamentId` equals `tid`. */
  predicate ForTournament(doc: ScheduleDoc, tid: Value)
  {
    Get(doc.tournament, "tournamentId") == tid
  }

  /** The test the duplicate check and the availability lookup are written
      with: the nested tournament object is non-empty and has the
      tournament id among its keys. */
  predicate TournamentKeyTest(doc: ScheduleDoc, tid: Value)
  {
    Truthy(Obj(doc.tournament)) && KeyIn(tid, doc.tournament)
  }

  /** Which test decides that a document belongs to a tournament: the
      key-membership test the duplicate check and the availability lookup
      are written with, or the nested-id comparison the by-tournament lookup
      uses. */
  datatype OwnerTest = KeyMembership | NestedId

  predicate Owns(test: OwnerTest, doc: ScheduleDoc, tid: Value)
  {
    match test
    case KeyMembership => TournamentKeyTest(doc, tid)
    case NestedId => ForTournament(doc, tid)
  }

  // ---------------------------------------------------------------------
  // create_schedule

  datatype CreateOutcome =
    | CreateMissingFields
    | AlreadyExists
    | Created(doc: ScheduleDoc)
  {
    function Status(): int
    {
      match this
      case CreateMissingFields => 400
      case AlreadyExists => 400
      case Created(_) => 201
    }
  }

  /** The document create_schedule stores. */
  function NewScheduleDoc(id: string, tid: Value, name: Value, round: Value, dateTime: Value): ScheduleDoc
  {
    ScheduleDoc(id, map["tournamentId" := tid, "name" := name], round, dateTime, NoAvailability)
  }

  /** The request is complete: a truthy tournamentId and tournamentName and a
      roundNumber that is not null. */
  predicate CreateRequestComplete(data: Object)
  {
    Truthy(Get(data, "tournamentId")) && Get(data, "roundNumber") != Null && Truthy(Get(data, "tournamentName"))
  }

  /** A stored document already holds this tournament's round. */
  predicate RoundTaken(test: OwnerTest, docs: seq<ScheduleDoc>, round: Value, tid: Value)
  {
    exists k :: 0 <= k < |docs| && IsRoundDoc(test, docs[k], round, tid)
  }

  /** create_schedule over the stored documents `docs`; `newId` is the
      document id the store assigns and `test` the duplicate check's
      ownership test (KeyMembership as written, NestedId as intended). */
  method CreateSchedule(test: OwnerTest, data: Object, docs: seq<ScheduleDoc>, newId: string) returns (r: CreateOutcome)
    ensures r.CreateMissingFields? <==> !CreateRequestComplete(data)
    ensures r.AlreadyExists? <==>
              CreateRequestComplete(data) && RoundTaken(test, docs, Get(data, "roundNumber"), Get(data, "tournamentId"))
    ensures r.Created? ==>
              r.doc == NewScheduleDoc(newId, Get(data, "tournamentId"), Get(data, "tournamentName"),
                                      Get(data, "roundNumber"), GetOr(data, "dateTime", Str("")))
  {
    var tid := Get(data, "tournamentId");
    var round := Get(data, "roundNumber");
    var name := Get(data, "tournamentName");
    if !Truthy(tid) || round == Null || !Truthy(name) {
      return CreateMissingFields;
    }
    for k := 0 to |docs|
      invariant forall m :: 0 <= m < k ==> !IsRoundDoc(test, docs[m], round, tid)
    {
      if docs[k].roundNumber == round && Owns(test, docs[k], tid) {
        return AlreadyExists;
      }
    }
    r := Created(NewScheduleDoc(newId, tid, name, round, GetOr(data, "dateTime", Str(""))));
  }

  /** The key-membership test misses every document create_schedule writes,
      unless the tournament id happens to be one of the nested object's own
      keys. */
  lemma KeyTestMissesCreatedDoc(id: string, tid: Value, name: Value, round: Value, dateTime: Value)
    requires tid != Str("tournamentId") && tid != Str("name")
    ensures !TournamentKeyTest(NewScheduleDoc(id, tid, name, round, dateTime), tid)
    ensures ForTournament(NewScheduleDoc(id, tid, name, round, dateTime), tid)
  {
  }

  /** With the value comparison, a round once created cannot be created a
      second time. */
  lemma CreatedRoundIsTaken(docs: seq<ScheduleDoc>, data: Object, newId: string)
    requires CreateRequestComplete(data)
    ensures var doc := NewScheduleDoc(newId, Get(data, "tournamentId"), Get(data, "tournamentName"),
                                      Get(data, "roundNumber"), GetOr(data, "dateTime", Str("")));
            RoundTaken(NestedId, docs + [doc], Get(data, "roundNumber"), Get(data, "tournamentId"))
  {
    var doc := NewScheduleDoc(newId, Get(data, "tournamentId"), Get(data, "tournamentName"),
                              Get(data, "roundNumber"), GetOr(data, "dateTime", Str("")));
    assert (docs + [doc])[|docs|] == doc;
  }

  // ---------------------------------------------------------------------
  // get_schedules_by_tournament_id

  /** The documents of tournament `tid`, in store order. */
  function ForTournamentIn(docs: seq<ScheduleDoc>, tid: Value): seq<ScheduleDoc>
  {
    if docs == [] then []
    else (if ForTournament(docs[0], tid) then [docs[0]] else []) + ForTournamentIn(docs[1..], tid)
  }

  /** Exactly the tournament's documents are kept. */
  lemma {:induction false} ForTournamentInMembers(docs: seq<ScheduleDoc>, tid: Value)
    ensures forall d :: d in ForTournamentIn(docs, tid) <==> d in docs && ForTournament(d, tid)
  {
    if docs != [] {
      ForTournamentInMembers(docs[1..], tid);
      assert forall d :: d in docs <==> d == docs[0] || d in docs[1..];
    }
  }

  datatype LookupOutcome = NoSchedules | Schedules(docs: seq<ScheduleDoc>)
  {
    function Status(): int
    {
      if NoSchedules? then 404 else 200
    }
  }

  method GetSchedulesByTournamentId(docs: seq<ScheduleDoc>, tid: string) returns (r: LookupOutcome)
    ensures r.NoSchedules? <==> forall d :: d in docs ==> !ForTournament(d, Str(tid))
    ensures r.Schedules? ==> r.docs == ForTournamentIn(docs, Str(tid)) && r.docs != []
  {
    var matching: seq<ScheduleDoc> := [];
    for k := 0 to |docs|
      invariant matching == ForTournamentIn(docs[..k], Str(tid))
    {
      var doc := docs[k];
      if Get(doc.tournament, "tournamentId") == Str(tid) {
        matching := matching + [doc];
      }
      ForTournamentInSnoc(docs[..k], doc, Str(tid));
      assert docs[..k + 1] == docs[..k] + [doc];
    }
    assert docs[..|docs|] == docs;
    ForTournamentInMembers(docs, Str(tid));
    if matching == [] {
      return NoSchedules;
    }
    assert matching[0] in matching;
    return Schedules(matching);
  }

  lemma {:induction false} ForTournamentInSnoc(docs: seq<ScheduleDoc>, doc: ScheduleDoc, tid: Value)
    ensures ForTournamentIn(docs + [doc], tid)
            == ForTournamentIn(docs, tid) + (if ForTournament(doc, tid) then [doc] else [])
  {
    if docs == [] {
      assert [doc][1..] == [];
    } else {
      var s := docs + [doc];
      assert s[0] == docs[0];
      assert s[1..] == docs[1..] + [doc];
      ForTournamentInSnoc(docs[1..], doc, tid);
    }
  }

  // ---------------------------------------------------------------------
  // submit_availability

  /** Put `teamId` on `day`'s list: create the day as an empty list when it is
      new, then append the team unless it is already listed. */
  function AddToDay(ta: Availability, teamId: Id, day: string): Availability
  {
    var ta1 := if day in ta.lists then ta else Availability(ta.order + [day], ta.lists[day := []]);
    if teamId in ta1.lists[day] then ta1
    else Availability(ta1.order, ta1.lists[day := ta1.lists[day] + [teamId]])
  }

  /** The merge loop of submit_availability, one submitted day at a time. */
  function Merge(ta: Availability, teamId: Id, days: seq<string>): Availability
    decreases |days|
  {
    if days == [] then ta else Merge(AddToDay(ta, teamId, days[0]), teamId, days[1..])
  }

  /** A day's list after the merge: what it held (nothing for a new day),
      followed by the team when it was not on it yet. */
  function MergedDay(ta: Availability, teamId: Id, d: string): seq<Id>
  {
    var before := if d in ta.lists then ta.lists[d] else [];
    before + (if teamId in before then [] else [teamId])
  }

  method MergeAvailability(ta: Availability, teamId: Id, days: seq<string>) returns (r: Availability)
    ensures r == Merge(ta, teamId, days)
  {
    r := ta;
    for k := 0 to |days|
      invariant Merge(r, teamId, days[k..]) == Merge(ta, teamId, days)
    {
      var day := days[k];
      if day !in r.lists {
        r := Availability(r.order + [day], r.lists[day := []]);
      }
      if teamId !in r.lists[day] {
        r := Availability(r.order, r.lists[day := r.lists[day] + [teamId]]);
      }
      assert days[k..][1..] == days[k + 1..];
    }
  }

  /** Every submitted day's list becomes MergedDay, and every other day is
      left as it was. */
  lemma {:induction false} MergeDay(ta: Availability, teamId: Id, days: seq<string>, d: string)
    ensures var r := Merge(ta, teamId, days);
            && (d in days ==> d in r.lists && r.lists[d] == MergedDay(ta, teamId, d))
            && (d !in days ==> (d in r.lists <==> d in ta.lists) && (d in ta.lists ==> r.lists[d] == ta.lists[d]))
    decreases |days|
  {
    if days != [] {
      var ta' := AddToDay(ta, teamId, days[0]);
      MergeDay(ta', teamId, days[1..], d);
      if d == days[0] {
        assert ta'.lists[d] == MergedDay(ta, teamId, d);
        assert MergedDay(ta', teamId, d) == ta'.lists[d];
      } else {
        assert (d in ta'.lists <==> d in ta.lists) && (d in ta.lists ==> ta'.lists[d] == ta.lists[d]);
        assert d in days ==> d in days[1..];
      }
    }
  }

  /** After the merge the team is on every submitted day. */
  lemma MergeListsTeam(ta: Availability, teamId: Id, days: seq<string>)
    ensures forall d :: d in days ==> d in Merge(ta, teamId, days).lists && teamId in Merge(ta, teamId, days).lists[d]
  {
    forall d | d in days
      ensures d in Merge(ta, teamId, days).lists && teamId in Merge(ta, teamId, days).lists[d]
    {
      MergeDay(ta, teamId, days, d);
    }
  }

  lemma {:induction false} MergeKeepsOrder(ta: Availability, teamId: Id, days: seq<string>)
    requires ta.Wf()
    ensures Merge(ta, teamId, days).Wf()
    ensures ta.order <= Merge(ta, teamId, days).order
    ensures (forall d :: d in days ==> d in ta.lists) ==> Merge(ta, teamId, days).order == ta.order
    decreases |days|
  {
    if days != [] {
      var day := days[0];
      var ta' := AddToDay(ta, teamId, day);
      if day !in ta.lists {
        assert day !in ta.order;
        assert NoDup(ta.order + [day]);
      }
      assert ta'.Wf();
      MergeKeepsOrder(ta', teamId, days[1..]);
    }
  }

  /** Submitting the same days again changes nothing. */
  lemma MergeIdempotent(ta: Availability, teamId: Id, days: seq<string>)
    requires ta.Wf()
    ensures Merge(Merge(ta, teamId, days), teamId, days) == Merge(ta, teamId, days)
  {
    var r1 := Merge(ta, teamId, days);
    var r2 := Merge(r1, teamId, days);
    forall d ensures (d in r2.lists <==> d in r1.lists) && (d in r1.lists ==> r2.lists[d] == r1.lists[d]) {
      MergeDay(ta, teamId, days, d);
      MergeDay(r1, teamId, days, d);
    }
    assert r2.lists == r1.lists;
    MergeListsTeam(ta, teamId, days);
    MergeKeepsOrder(ta, teamId, days);
    MergeKeepsOrder(r1, teamId, days);
  }

  datatype SubmitOutcome =
    | SubmitMissingFields
    | RoundNotFound
    | Submitted(index: nat, availability: Availability)
  {
    function Status(): int
    {
      match this
      case SubmitMissingFields => 400
      case RoundNotFound => 404
      case Submitted(_, _) => 200
    }
  }

  /** The document submit_availability updates: the first stored document of
      this round that belongs to the tournament. */
  predicate IsRoundDoc(test: OwnerTest, doc: ScheduleDoc, round: Value, tid: Value)
  {
    doc.roundNumber == round && Owns(test, doc, tid)
  }

  /** submit_availability for tournament `tid` (the path parameter). The
      request's availableDays is a list of day names. Returns the index of
      the updated document and its new teamAvailableDays. */
  method SubmitAvailability(test: OwnerTest, tid: string, teamId: Value, availableDays: seq<string>, round: Value,
                            docs: seq<ScheduleDoc>) returns (r: SubmitOutcome)
    ensures r.SubmitMissingFields? <==> !Truthy(teamId) || availableDays == [] || round == Null
    ensures r.RoundNotFound? <==>
              Truthy(teamId) && availableDays != [] && round != Null &&
              forall k :: 0 <= k < |docs| ==> !IsRoundDoc(test, docs[k], round, Str(tid))
    ensures r.Submitted? ==>
              && r.index < |docs|
              && IsRoundDoc(test, docs[r.index], round, Str(tid))
              && (forall k :: 0 <= k < r.index ==> !IsRoundDoc(test, docs[k], round, Str(tid)))
              && r.availability == Merge(docs[r.index].teamAvailableDays, teamId, availableDays)
  {
    if !Truthy(teamId) || availableDays == [] || round == Null {
      return SubmitMissingFields;
    }
    var selected: Option<nat> := None;
    for k := 0 to |docs|
      invariant forall m :: 0 <= m < k ==> !IsRoundDoc(test, docs[m], round, Str(tid))
    {
      if docs[k].roundNumber == round && Owns(test, docs[k], Str(tid)) {
        selected := Some(k);
        break;
      }
    }
    if selected.None? {
      return RoundNotFound;
    }
    var merged := MergeAvailability(docs[selected.value].teamAvailableDays, teamId, availableDays);
    r := Submitted(selected.value, merged);
  }

  /** A round created by create_schedule is the one a later availability
      submission for that tournament and round updates. */
  lemma CreatedScheduleIsFound(id: string, tid: string, name: Value, round: Value, dateTime: Value)
    ensures IsRoundDoc(NestedId, NewScheduleDoc(id, Str(tid), name, round, dateTime), round, Str(tid))
  {
  }

  // ---------------------------------------------------------------------
  // The ownership test at the level of the routes

  /** A complete create request for tournament `tid`, where `tid` is not
      one of the nested object's key names. */
  predicate PlainCreateRequest(data: Object, tid: string)
  {
    CreateRequestComplete(data) && Get(data, "tournamentId") == Str(tid) &&
    tid != "tournamentId" && tid != "name"
  }

  /** As written: on an empty store, two identical create requests both
      succeed, storing two documents for the same tournament and round, and
      an availability submission for that round answers 404. */
  method KeyMembershipRoutes(data: Object, tid: string, id1: string, id2: string, teamId: Value, days: seq<string>)
    returns (first: CreateOutcome, second: CreateOutcome, submitted: SubmitOutcome)
    requires PlainCreateRequest(data, tid) && Truthy(teamId) && days != []
    ensures first.Created? && second.Created?
    ensures first.doc.roundNumber == second.doc.roundNumber == Get(data, "roundNumber")
    ensures ForTournament(first.doc, Str(tid)) && ForTournament(second.doc, Str(tid))
    ensures submitted.RoundNotFound?
  {
    KeyTestMissesCreatedDoc(id1, Str(tid), Get(data, "tournamentName"), Get(data, "roundNumber"),
                            GetOr(data, "dateTime", Str("")));
    KeyTestMissesCreatedDoc(id2, Str(tid), Get(data, "tournamentName"), Get(data, "roundNumber"),
                            GetOr(data, "dateTime", Str("")));
    first := CreateSchedule(KeyMembership, data, [], id1);
    second := CreateSchedule(KeyMembership, data, [first.doc], id2);
    submitted := SubmitAvailability(KeyMembership, tid, teamId, days, Get(data, "roundNumber"),
                                    [first.doc, second.doc]);
  }

  /** As intended: with the nested-id comparison the second create request
      is refused and the submission updates the created document. */
  method NestedIdRoutes(data: Object, tid: string, id1: string, id2: string, teamId: Value, days: seq<string>)
    returns (first: CreateOutcome, second: CreateOutcome, submitted: SubmitOutcome)
    requires CreateRequestComplete(data) && Get(data, "tournamentId") == Str(tid) && Truthy(teamId) && days != []
    ensures first.Created? && second.AlreadyExists?
    ensures submitted == Submitted(0, Merge(NoAvailability, teamId, days))
  {
    first := CreateSchedule(NestedId, data, [], id1);
    CreatedRoundIsTaken([], data, id1);
    assert [] + [first.doc] == [first.doc];
    second := CreateSchedule(NestedId, data, [first.doc], id2);
    CreatedScheduleIsFound(id1, tid, Get(data, "tournamentName"), Get(data, "roundNumber"),
                           GetOr(data, "dateTime", Str("")));
    submitted := SubmitAvailability(NestedId, tid, teamId, days, Get(data, "roundNumber"), [first.doc]);
  }
}
