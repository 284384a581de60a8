/**
 * `ShiftService`: creating, updating and deleting shift documents. A save runs
 * the Shift schema's validation: the trimmed name is required, the start and
 * end times are required, and the grace period is at least 0.
 */
module ShiftService {
  import opened Wrappers
  import opened Text
  import opened Store

  /** A request body; `None` is a field that is `undefined`. */
  datatype ShiftData = ShiftData(name: Option<string>, startTime: Option<string>, endTime: Option<string>,
                                 graceMinutes: Option<int>)

  /** The errors the service throws. */
  datatype ShiftError = MissingRequiredFields | ValidationFailed | ShiftNotFound

  /** The message each error carries; a validation error's message is summarised by its prefix. */
  function Message(e: ShiftError): string {
    match e
    case MissingRequiredFields => "Missing required fields: name, start_time, end_time"
    case ValidationFailed => "Shift validation failed"
    case ShiftNotFound => "Shift not found"
  }

  /**
   * The schema's validation on `save()`: `required` on a string rejects the
   * empty string, which is the falsy one, and `min: 0` bounds the grace period.
   */
  predicate Saveable(s: Shift)
    ensures Saveable(s) <==> Given(Some(s.name)) && Given(Some(s.startTime)) && Given(Some(s.endTime)) && s.graceMinutes >= 0
  {
    s.name != "" && s.startTime != "" && s.endTime != "" && s.graceMinutes >= 0
  }

  /** `!name || !start_time || !end_time`, negated: all three are truthy. */
  predicate CreateInputComplete(data: ShiftData) {
    Given(data.name) && Given(data.startTime) && Given(data.endTime)
  }

  /**
   * The document `new Shift(...)` builds: the schema trims the name, a falsy
   * grace period becomes 0, and neither the effective start time nor the
   * member list is set.
   */
  function NewShift(data: ShiftData): (s: Shift)
    requires CreateInputComplete(data)
    ensures s.name == Trim(data.name.value)
    ensures s.startTime == data.startTime.value && s.endTime == data.endTime.value
    ensures data.graceMinutes.Some? ==> s.graceMinutes == data.graceMinutes.value
    ensures data.graceMinutes.None? ==> s.graceMinutes == 0
    ensures s.effectiveStartTime == None && s.trainees == []
  {
    Shift(Trim(data.name.value), data.startTime.value, data.endTime.value, data.graceMinutes.GetOr(0), None, [])
  }

  /**
   * Past the presence check, a new shift saves exactly when its name is not
   * white space only and its grace period is not negative.
   */
  lemma NewShiftSaveable(data: ShiftData)
    requires CreateInputComplete(data)
    ensures Saveable(NewShift(data)) <==> !IsBlank(data.name.value) && data.graceMinutes.GetOr(0) >= 0
  {
  }

  /** `createShift`: a missing field or a failed validation changes nothing; otherwise one shift is added under a fresh id. */
  method CreateShift(db: Database, data: ShiftData) returns (r: Result<Id>)
    requires db.Valid()
    modifies db
    ensures db.Valid()
    ensures !CreateInputComplete(data) ==> r == Failure(Message(MissingRequiredFields)) && unchanged(db)
    ensures CreateInputComplete(data) && !Saveable(NewShift(data)) ==>
      r == Failure(Message(ValidationFailed)) && unchanged(db)
    ensures CreateInputComplete(data) && Saveable(NewShift(data)) ==>
      && r == Success(old(db.nextId)) && r.value !in old(db.shifts)
      && db.shifts == old(db.shifts)[r.value := NewShift(data)]
      && db.trainees == old(db.trainees) && db.ranks == old(db.ranks)
      && db.specializations == old(db.specializations) && db.nextId == old(db.nextId) + 1
  {
    if !Given(data.name) || !Given(data.startTime) || !Given(data.endTime) {
      return Failure(Message(MissingRequiredFields));
    }
    var shift := NewShift(data);
    if !Saveable(shift) {
      return Failure(Message(ValidationFailed));
    }
    var id := Insert(db, shift);
    r := Success(id);
  }

  /** `shift.save()` of a new document under a fresh id. */
  method Insert(db: Database, shift: Shift) returns (id: Id)
    requires db.Valid() && shift.trainees == []
    modifies db
    ensures db.Valid()
    ensures id == old(db.nextId) && id !in old(db.shifts)
    ensures db.shifts == old(db.shifts)[id := shift]
    ensures db.trainees == old(db.trainees) && db.ranks == old(db.ranks)
    ensures db.specializations == old(db.specializations) && db.nextId == old(db.nextId) + 1
  {
    NewShiftKeepsInStep(db.trainees, db.shifts, db.nextId, shift);
    id := db.NewId();
    db.shifts := db.shifts[id := shift];
  }

  /** The loaded shift after `updateShift`'s assignments: each field that is not `undefined` replaced, the name trimmed by its setter. */
  function Assigned(s: Shift, data: ShiftData): (r: Shift)
    ensures r.name == (if data.name.Some? then Trim(data.name.value) else s.name)
    ensures r.startTime == data.startTime.GetOr(s.startTime) && r.endTime == data.endTime.GetOr(s.endTime)
    ensures r.graceMinutes == data.graceMinutes.GetOr(s.graceMinutes)
    ensures r.effectiveStartTime == s.effectiveStartTime && r.trainees == s.trainees
  {
    var name := if data.name.Some? then Trim(data.name.value) else s.name;
    s.(name := name, startTime := data.startTime.GetOr(s.startTime), endTime := data.endTime.GetOr(s.endTime),
       graceMinutes := data.graceMinutes.GetOr(s.graceMinutes))
  }

  /** A body with no fields assigns nothing. */
  lemma EmptyUpdateAssignsNothing(s: Shift)
    ensures Assigned(s, ShiftData(None, None, None, None)) == s
  {
  }

  /** Assigning the same body twice is assigning it once. */
  lemma AssignIdempotent(s: Shift, data: ShiftData)
    ensures Assigned(Assigned(s, data), data) == Assigned(s, data)
  {
    var once := Assigned(s, data);
    var twice := Assigned(once, data);
    if data.name.Some? {
      TrimIdempotent(data.name.value);
    }
    assert twice.name == once.name && twice.startTime == once.startTime && twice.endTime == once.endTime;
    assert twice.graceMinutes == once.graceMinutes;
  }

  /** An update that supplies an empty name, start or end time, or a negative grace period, fails validation. */
  lemma EmptyFieldFailsUpdate(s: Shift, data: ShiftData)
    requires data.name == Some("") || data.startTime == Some("") || data.endTime == Some("")
             || (data.graceMinutes.Some? && data.graceMinutes.value < 0)
    ensures !Saveable(Assigned(s, data))
  {
  }

  /** `updateShift`: an unknown id or a failed validation changes nothing; otherwise only that shift's assigned fields change. */
  method UpdateShift(db: Database, id: Id, data: ShiftData) returns (r: Result<Shift>)
    requires db.Valid()
    modifies db
    ensures db.Valid()
    ensures id !in old(db.shifts) ==> r == Failure(Message(ShiftNotFound)) && unchanged(db)
    ensures id in old(db.shifts) && !Saveable(Assigned(old(db.shifts)[id], data)) ==>
      r == Failure(Message(ValidationFailed)) && unchanged(db)
    ensures id in old(db.shifts) && Saveable(Assigned(old(db.shifts)[id], data)) ==>
      && r == Success(Assigned(old(db.shifts)[id], data))
      && db.shifts == old(db.shifts)[id := r.value]
      && db.trainees == old(db.trainees) && db.ranks == old(db.ranks)
      && db.specializations == old(db.specializations) && db.nextId == old(db.nextId)
  {
    if id !in db.shifts {
      return Failure(Message(ShiftNotFound));
    }
    var shift := Assigned(db.shifts[id], data);
    if !Saveable(shift) {
      return Failure(Message(ValidationFailed));
    }
    EditShiftKeepsInStep(db.trainees, db.shifts, db.nextId, id, shift);
    db.shifts := db.shifts[id := shift];
    r := Success(shift);
  }

  /**
   * `deleteShift`: an unknown id fails; otherwise the shift is gone (the result
   * is `deleteOne`'s count) and its trainees keep their now dangling reference.
   */
  method DeleteShift(db: Database, id: Id) returns (r: Result<nat>)
    requires db.Valid()
    modifies db
    ensures db.Valid()
    ensures id !in old(db.shifts) ==> r == Failure(Message(ShiftNotFound)) && unchanged(db)
    ensures id in old(db.shifts) ==>
      && r == Success(1) && db.shifts == old(db.shifts) - {id}
      && db.trainees == old(db.trainees) && db.ranks == old(db.ranks)
      && db.specializations == old(db.specializations) && db.nextId == old(db.nextId)
  {
    if id !in db.shifts {
      return Failure(Message(ShiftNotFound));
    }
    DeleteShiftKeepsInStep(db.trainees, db.shifts, db.nextId, id);
    db.shifts := db.shifts - {id};
    r := Success(1);
  }
}
