/**
 * The back end's MongoDB collections as one sequential store: trainees, shifts,
 * ranks and specializations keyed by document id, and the id counter that
 * stands for ObjectId generation (ids are handed out in increasing order and
 * never reused).
 *
 * The services keep a shift's `trainees` list in step with the trainees whose
 * `shift_id` names that shift; `InStep` states that, and each list update the
 * services make has a lemma showing it keeps `InStep`.
 */
module Store {
  import opened Wrappers
  import opened Text
  import opened Lists

  /** A document id. */
  type Id = nat

  datatype Trainee = Trainee(civilId: string, militaryId: string, fullName: string,
                             rankId: Id, specialtyId: Id, shiftId: Id)

  /** A shift document; `trainees` is the member list the services push to and pull from. */
  datatype Shift = Shift(name: string, startTime: string, endTime: string, graceMinutes: int,
                         effectiveStartTime: Option<string>, trainees: seq<Id>)

  datatype Rank = Rank(name: string)

  datatype Specialization = Specialization(name: string)

  /** A request field JavaScript reads as truthy: present and not the empty string. */
  predicate Given(field: Option<string>) {
    field.Some? && field.value != ""
  }

  /** A request field that passes `!x || !x.trim()` negated: present, with a character that is not white space. */
  predicate Filled(field: Option<string>) {
    field.Some? && !IsBlank(field.value)
  }

  /** Every id, and every trainee's shift reference, was handed out before `nextId`. */
  predicate IdsBelow(trainees: map<Id, Trainee>, shifts: map<Id, Shift>, nextId: Id) {
    && (forall t :: t in trainees ==> t < nextId && trainees[t].shiftId < nextId)
    && (forall s :: s in shifts ==> s < nextId)
  }

  /** Every listed member is a trainee whose shift is that shift. */
  predicate ListsSound(trainees: map<Id, Trainee>, shifts: map<Id, Shift>) {
    forall s, i :: s in shifts && 0 <= i < |shifts[s].trainees| ==>
      shifts[s].trainees[i] in trainees && trainees[shifts[s].trainees[i]].shiftId == s
  }

  /** Every trainee whose shift exists is listed by it. */
  predicate ListsComplete(trainees: map<Id, Trainee>, shifts: map<Id, Shift>) {
    forall t :: t in trainees && trainees[t].shiftId in shifts ==> t in shifts[trainees[t].shiftId].trainees
  }

  /** No shift lists a trainee twice. */
  predicate ListsDuplicateFree(shifts: map<Id, Shift>) {
    forall s :: s in shifts ==> NoDuplicates(shifts[s].trainees)
  }

  /** The shifts' member lists agree with the trainees' shift references. */
  predicate InStep(trainees: map<Id, Trainee>, shifts: map<Id, Shift>, nextId: Id) {
    && IdsBelow(trainees, shifts, nextId)
    && ListsSound(trainees, shifts)
    && ListsComplete(trainees, shifts)
    && ListsDuplicateFree(shifts)
  }

  /**
   * `Shift.findByIdAndUpdate(sid, { $push: { trainees: id } })`: appends to that
   * shift's list; with no such shift nothing happens.
   */
  function Push(shifts: map<Id, Shift>, sid: Id, id: Id): (r: map<Id, Shift>)
    ensures r.Keys == shifts.Keys
    ensures sid in shifts ==> r[sid] == shifts[sid].(trainees := shifts[sid].trainees + [id])
    ensures forall s :: s in shifts && s != sid ==> r[s] == shifts[s]
  {
    if sid in shifts then shifts[sid := shifts[sid].(trainees := shifts[sid].trainees + [id])] else shifts
  }

  /**
   * `Shift.findByIdAndUpdate(sid, { $pull: { trainees: id } })`: removes every
   * occurrence from that shift's list; with no such shift nothing happens.
   */
  function Pull(shifts: map<Id, Shift>, sid: Id, id: Id): (r: map<Id, Shift>)
    ensures r.Keys == shifts.Keys
    ensures sid in shifts ==> r[sid] == shifts[sid].(trainees := Remove(shifts[sid].trainees, id))
    ensures forall s :: s in shifts && s != sid ==> r[s] == shifts[s]
  {
    if sid in shifts then shifts[sid := shifts[sid].(trainees := Remove(shifts[sid].trainees, id))] else shifts
  }

  /** Inserting a trainee under a fresh id and pushing it onto its shift keeps the lists in step. */
  lemma InsertKeepsInStep(trainees: map<Id, Trainee>, shifts: map<Id, Shift>, nextId: Id, t: Trainee)
    requires InStep(trainees, shifts, nextId)
    requires t.shiftId in shifts
    ensures InStep(trainees[nextId := t], Push(shifts, t.shiftId, nextId), nextId + 1)
  {
    var id, sid := nextId, t.shiftId;
    var trainees', shifts' := trainees[id := t], Push(shifts, sid, id);
    assert id !in shifts[sid].trainees;
    AppendNoDuplicates(shifts[sid].trainees, id);
    forall s, i | s in shifts' && 0 <= i < |shifts'[s].trainees|
      ensures shifts'[s].trainees[i] in trainees' && trainees'[shifts'[s].trainees[i]].shiftId == s
    {
      if s == sid && i == |shifts[sid].trainees| {
      } else {
        assert shifts'[s].trainees[i] == shifts[s].trainees[i];
      }
    }
  }

  /**
   * Giving a trainee another existing shift, pulling it from the old list and
   * pushing it onto the new one, keeps the lists in step.
   */
  lemma MoveKeepsInStep(trainees: map<Id, Trainee>, shifts: map<Id, Shift>, nextId: Id, id: Id, t: Trainee)
    requires InStep(trainees, shifts, nextId)
    requires id in trainees && t.shiftId in shifts && t.shiftId != trainees[id].shiftId
    ensures InStep(trainees[id := t], Push(Pull(shifts, trainees[id].shiftId, id), t.shiftId, id), nextId)
  {
    var from, to := trainees[id].shiftId, t.shiftId;
    var pulled := Pull(shifts, from, id);
    var trainees', shifts' := trainees[id := t], Push(pulled, to, id);
    assert id !in shifts[to].trainees;
    assert pulled[to] == shifts[to];
    AppendNoDuplicates(shifts[to].trainees, id);
    forall s, i | s in shifts' && 0 <= i < |shifts'[s].trainees|
      ensures shifts'[s].trainees[i] in trainees' && trainees'[shifts'[s].trainees[i]].shiftId == s
    {
      var x := shifts'[s].trainees[i];
      if s == to && i == |shifts[to].trainees| {
      } else if s == to {
        assert x == shifts[s].trainees[i];
      } else if s == from {
        assert x in shifts[s].trainees && x != id;
      } else {
        assert x == shifts[s].trainees[i];
      }
    }
    forall u | u in trainees' && trainees'[u].shiftId in shifts'
      ensures u in shifts'[trainees'[u].shiftId].trainees
    {
      if u != id {
        var s := trainees[u].shiftId;
        var k :| 0 <= k < |shifts[s].trainees| && shifts[s].trainees[k] == u;
        if s == from {
          assert u in pulled[s].trainees;
        } else if s == to {
          assert shifts'[s].trainees[k] == u;
        }
      }
    }
  }

  /** Changing a trainee's other fields while keeping its shift keeps the lists in step. */
  lemma EditKeepsInStep(trainees: map<Id, Trainee>, shifts: map<Id, Shift>, nextId: Id, id: Id, t: Trainee)
    requires InStep(trainees, shifts, nextId)
    requires id in trainees && t.shiftId == trainees[id].shiftId
    ensures InStep(trainees[id := t], shifts, nextId)
  {
  }

  /** Deleting a trainee and pulling it from its shift keeps the lists in step. */
  lemma DeleteKeepsInStep(trainees: map<Id, Trainee>, shifts: map<Id, Shift>, nextId: Id, id: Id)
    requires InStep(trainees, shifts, nextId)
    requires id in trainees
    ensures InStep(trainees - {id}, Pull(shifts, trainees[id].shiftId, id), nextId)
  {
    var from := trainees[id].shiftId;
    var trainees', shifts' := trainees - {id}, Pull(shifts, from, id);
    forall s, i | s in shifts' && 0 <= i < |shifts'[s].trainees|
      ensures shifts'[s].trainees[i] in trainees' && trainees'[shifts'[s].trainees[i]].shiftId == s
    {
      var x := shifts'[s].trainees[i];
      if s == from {
        assert x in shifts[s].trainees && x != id;
      } else {
        assert x == shifts[s].trainees[i];
      }
    }
    forall u | u in trainees' && trainees'[u].shiftId in shifts'
      ensures u in shifts'[trainees'[u].shiftId].trainees
    {
      var s := trainees[u].shiftId;
      var k :| 0 <= k < |shifts[s].trainees| && shifts[s].trainees[k] == u;
      if s == from {
        assert u in shifts'[s].trainees;
      }
    }
  }

  /** A new shift under a fresh id with an empty list keeps the lists in step: no trainee can name it yet. */
  lemma NewShiftKeepsInStep(trainees: map<Id, Trainee>, shifts: map<Id, Shift>, nextId: Id, s: Shift)
    requires InStep(trainees, shifts, nextId)
    requires s.trainees == []
    ensures InStep(trainees, shifts[nextId := s], nextId + 1)
  {
    var shifts' := shifts[nextId := s];
    forall t | t in trainees && trainees[t].shiftId in shifts'
      ensures t in shifts'[trainees[t].shiftId].trainees
    {
      assert trainees[t].shiftId != nextId;
    }
  }

  /** Replacing a shift's other fields while keeping its list keeps the lists in step. */
  lemma EditShiftKeepsInStep(trainees: map<Id, Trainee>, shifts: map<Id, Shift>, nextId: Id, sid: Id, s: Shift)
    requires InStep(trainees, shifts, nextId)
    requires sid in shifts && s.trainees == shifts[sid].trainees
    ensures InStep(trainees, shifts[sid := s], nextId)
  {
    var shifts' := shifts[sid := s];
    forall t | t in trainees && trainees[t].shiftId in shifts'
      ensures t in shifts'[trainees[t].shiftId].trainees
    {
      assert shifts'[trainees[t].shiftId].trainees == shifts[trainees[t].shiftId].trainees;
    }
  }

  /** Deleting a shift keeps the lists in step; its trainees keep a reference to no shift. */
  lemma DeleteShiftKeepsInStep(trainees: map<Id, Trainee>, shifts: map<Id, Shift>, nextId: Id, sid: Id)
    requires InStep(trainees, shifts, nextId)
    ensures InStep(trainees, shifts - {sid}, nextId)
  {
  }

  /**
   * The member update as the Shift schema has it: the schema declares no
   * `trainees` path, and Mongoose's default strict mode strips update paths
   * the schema does not declare, so the `$push` and `$pull` change nothing.
   */
  function PushAsWritten(shifts: map<Id, Shift>, sid: Id, id: Id): (r: map<Id, Shift>)
    ensures r == shifts
  {
    shifts
  }

  /** A trainee created on an existing shift, with the member lists updated as the schema has it, is listed nowhere. */
  lemma StrictSchemaLosesMembership()
    ensures var shifts := map[0 := Shift("Morning", "08:00", "16:00", 0, None, [])];
            var t := Trainee("1", "2", "A", 0, 0, 0);
            && InStep(map[], shifts, 1)
            && !InStep(map[1 := t], PushAsWritten(shifts, 0, 1), 2)
            && InStep(map[1 := t], Push(shifts, 0, 1), 2)
  {
    var shifts := map[0 := Shift("Morning", "08:00", "16:00", 0, None, [])];
    var t := Trainee("1", "2", "A", 0, 0, 0);
    assert InStep(map[], shifts, 1);
    var trainees' := map[1 := t];
    assert 1 in trainees' && trainees'[1].shiftId in shifts && 1 !in shifts[trainees'[1].shiftId].trainees;
    assert !ListsComplete(trainees', PushAsWritten(shifts, 0, 1));
    InsertKeepsInStep(map[], shifts, 1, t);
  }

  /** The four collections and the id counter. */
  class Database {
    var trainees: map<Id, Trainee>
    var shifts: map<Id, Shift>
    var ranks: map<Id, Rank>
    var specializations: map<Id, Specialization>
    var nextId: Id

    /** The member lists are in step and every id was handed out before `nextId`. */
    predicate Valid()
      reads this
    {
      && InStep(trainees, shifts, nextId)
      && (forall r :: r in ranks ==> r < nextId)
      && (forall p :: p in specializations ==> p < nextId)
    }

    constructor()
      ensures Valid()
      ensures trainees == map[] && shifts == map[] && ranks == map[] && specializations == map[]
    {
      trainees, shifts, ranks, specializations := map[], map[], map[], map[];
      nextId := 0;
    }

    /** A new ObjectId: one no document has. */
    method NewId() returns (id: Id)
      modifies this`nextId
      ensures id == old(nextId) && nextId == id + 1
    {
      id := nextId;
      nextId := nextId + 1;
    }
  }
}
