/**
 * `TraineeService`: creating, updating and deleting trainee documents, with the
 * guard chains that reject a request before the store is touched and the
 * member-list updates on the trainee's shift.
 */
module TraineeService {
  import opened Wrappers
  import opened Text
  import opened Lists
  import opened Store

  /** A request body; `None` is a field the request does not carry. */
  datatype TraineeData = TraineeData(civilId: Option<string>, militaryId: Option<string>, fullName: Option<string>,
                                     rankId: Option<Id>, specialtyId: Option<Id>, shiftId: Option<Id>)

  /** The errors the service throws. */
  datatype TraineeError =
      CivilIdRequired
    | CivilIdEmpty
    | CivilIdNotNumeric
    | MilitaryIdRequired
    | MilitaryIdEmpty
    | MilitaryIdNotNumeric
    | FullNameRequired
    | FullNameEmpty
    | RankRequired
    | SpecialtyRequired
    | ShiftRequired
    | ShiftNotFound
    | RankNotFound
    | SpecializationNotFound
    | TraineeNotFound

  /** The message each error carries. */
  function Message(e: TraineeError): string {
    match e
    case CivilIdRequired => "Civil ID is required"
    case CivilIdEmpty => "Civil ID cannot be empty"
    case CivilIdNotNumeric => "Civil ID must contain only numbers"
    case MilitaryIdRequired => "Military ID is required"
    case MilitaryIdEmpty => "Military ID cannot be empty"
    case MilitaryIdNotNumeric => "Military ID must contain only numbers"
    case FullNameRequired => "Full name is required"
    case FullNameEmpty => "Full name cannot be empty"
    case RankRequired => "Rank is required"
    case SpecialtyRequired => "Specialty is required"
    case ShiftRequired => "Shift is required"
    case ShiftNotFound => "Shift not found"
    case RankNotFound => "Rank not found"
    case SpecializationNotFound => "Specialization not found"
    case TraineeNotFound => "Trainee not found"
  }

  /** A field that is there and matches `/^\d+$/` once trimmed. */
  predicate NumericField(field: Option<string>) {
    field.Some? && IsDigits(Trim(field.value))
  }

  /** Everything `createTrainee` demands of the request body itself. */
  predicate CreateInputComplete(data: TraineeData) {
    && NumericField(data.civilId) && NumericField(data.militaryId) && Filled(data.fullName)
    && data.rankId.Some? && data.specialtyId.Some? && data.shiftId.Some?
  }

  /** The first check of `createTrainee`'s guard chain that the request body fails, if any. */
  function CreateInputError(data: TraineeData): (r: Option<TraineeError>)
    ensures r == None <==> CreateInputComplete(data)
  {
    if !Filled(data.civilId) then Some(CivilIdRequired)
    else if !IsDigits(Trim(data.civilId.value)) then Some(CivilIdNotNumeric)
    else if !Filled(data.militaryId) then Some(MilitaryIdRequired)
    else if !IsDigits(Trim(data.militaryId.value)) then Some(MilitaryIdNotNumeric)
    else if !Filled(data.fullName) then Some(FullNameRequired)
    else if data.rankId.None? then Some(RankRequired)
    else if data.specialtyId.None? then Some(SpecialtyRequired)
    else if data.shiftId.None? then Some(ShiftRequired)
    else None
  }

  /** The checks run in source order: each message is reported exactly when every earlier check passed and its own failed. */
  lemma CreateInputChecksInOrder(data: TraineeData)
    ensures CreateInputError(data) == Some(CivilIdRequired) <==> !Filled(data.civilId)
    ensures CreateInputError(data) == Some(CivilIdNotNumeric) <==> Filled(data.civilId) && !NumericField(data.civilId)
    ensures CreateInputError(data) == Some(MilitaryIdRequired) <==> NumericField(data.civilId) && !Filled(data.militaryId)
    ensures CreateInputError(data) == Some(MilitaryIdNotNumeric) <==>
      NumericField(data.civilId) && Filled(data.militaryId) && !NumericField(data.militaryId)
    ensures CreateInputError(data) == Some(FullNameRequired) <==>
      NumericField(data.civilId) && NumericField(data.militaryId) && !Filled(data.fullName)
    ensures CreateInputError(data) == Some(RankRequired) <==>
      NumericField(data.civilId) && NumericField(data.militaryId) && Filled(data.fullName) && data.rankId.None?
    ensures CreateInputError(data) == Some(SpecialtyRequired) <==>
      NumericField(data.civilId) && NumericField(data.militaryId) && Filled(data.fullName) && data.rankId.Some?
      && data.specialtyId.None?
    ensures CreateInputError(data) == Some(ShiftRequired) <==>
      NumericField(data.civilId) && NumericField(data.militaryId) && Filled(data.fullName) && data.rankId.Some?
      && data.specialtyId.Some? && data.shiftId.None?
  {
  }

  /** The first failing check of the whole of `createTrainee`: the body, then the shift, rank and specialization it names. */
  function CreateError(data: TraineeData, shifts: map<Id, Shift>, ranks: map<Id, Rank>,
                       specializations: map<Id, Specialization>): (r: Option<TraineeError>)
    ensures r == None <==>
      && CreateInputComplete(data) && data.shiftId.value in shifts && data.rankId.value in ranks
      && data.specialtyId.value in specializations
    ensures CreateInputError(data).Some? ==> r == CreateInputError(data)
  {
    var e := CreateInputError(data);
    if e.Some? then e
    else if data.shiftId.value !in shifts then Some(ShiftNotFound)
    else if data.rankId.value !in ranks then Some(RankNotFound)
    else if data.specialtyId.value !in specializations then Some(SpecializationNotFound)
    else None
  }

  /** After the body's checks, the shift, the rank and the specialization are looked up in that order. */
  lemma CreateReferencesInOrder(data: TraineeData, shifts: map<Id, Shift>, ranks: map<Id, Rank>,
                                specializations: map<Id, Specialization>)
    ensures CreateError(data, shifts, ranks, specializations) == Some(ShiftNotFound) <==> CreateInputComplete(data) && data.shiftId.value !in shifts
    ensures CreateError(data, shifts, ranks, specializations) == Some(RankNotFound) <==>
      CreateInputComplete(data) && data.shiftId.value in shifts && data.rankId.value !in ranks
    ensures CreateError(data, shifts, ranks, specializations) == Some(SpecializationNotFound) <==>
      && CreateInputComplete(data) && data.shiftId.value in shifts && data.rankId.value in ranks
      && data.specialtyId.value !in specializations
  {
  }

  /** The document `new Trainee(...)` saves: the schema trims the three strings. */
  function NewTrainee(data: TraineeData): (t: Trainee)
    requires CreateInputComplete(data)
    ensures IsDigits(t.civilId) && IsDigits(t.militaryId) && t.fullName != []
    ensures t.rankId == data.rankId.value && t.specialtyId == data.specialtyId.value && t.shiftId == data.shiftId.value
  {
    Trainee(Trim(data.civilId.value), Trim(data.militaryId.value), Trim(data.fullName.value),
            data.rankId.value, data.specialtyId.value, data.shiftId.value)
  }

  /** `createTrainee`: on success exactly one trainee is added, under a fresh id, and listed by its shift. */
  method CreateTrainee(db: Database, data: TraineeData) returns (r: Result<Id>)
    requires db.Valid()
    modifies db
    ensures db.Valid()
    ensures var e := CreateError(data, old(db.shifts), old(db.ranks), old(db.specializations));
      e.Some? ==> r == Failure(Message(e.value)) && unchanged(db)
    ensures CreateError(data, old(db.shifts), old(db.ranks), old(db.specializations)).None? ==>
      && r == Success(old(db.nextId)) && r.value !in old(db.trainees)
      && db.trainees == old(db.trainees)[r.value := NewTrainee(data)]
      && db.shifts == Push(old(db.shifts), data.shiftId.value, r.value)
      && db.ranks == old(db.ranks) && db.specializations == old(db.specializations)
      && db.nextId == old(db.nextId) + 1
  {
    var e := CreateInputError(data);
    if e.Some? {
      return Failure(Message(e.value));
    }
    var shiftId, rankId, specialtyId := data.shiftId.value, data.rankId.value, data.specialtyId.value;
    if shiftId !in db.shifts {
      return Failure(Message(ShiftNotFound));
    }
    if rankId !in db.ranks {
      return Failure(Message(RankNotFound));
    }
    if specialtyId !in db.specializations {
      return Failure(Message(SpecializationNotFound));
    }
    var id := Insert(db, NewTrainee(data));
    r := Success(id);
  }

  /** `trainee.save()` under a fresh id, then the `$push` onto its shift's list. */
  method Insert(db: Database, trainee: Trainee) returns (id: Id)
    requires db.Valid() && trainee.shiftId in db.shifts
    modifies db
    ensures db.Valid()
    ensures id == old(db.nextId) && id !in old(db.trainees)
    ensures db.trainees == old(db.trainees)[id := trainee]
    ensures db.shifts == Push(old(db.shifts), trainee.shiftId, id)
    ensures db.ranks == old(db.ranks) && db.specializations == old(db.specializations)
    ensures db.nextId == old(db.nextId) + 1
  {
    InsertKeepsInStep(db.trainees, db.shifts, db.nextId, trainee);
    id := db.NewId();
    db.trainees := db.trainees[id := trainee];
    db.shifts := Push(db.shifts, trainee.shiftId, id);
  }

  /** A supplied field that `updateTrainee` lets through: absent, empty (falsy, so unchecked) or numeric once trimmed. */
  predicate NumericIfGiven(field: Option<string>) {
    !Given(field) || IsDigits(Trim(field.value))
  }

  /** The first check of `updateTrainee`'s guard chain that the request body fails, if any. */
  function UpdateInputError(data: TraineeData): (r: Option<TraineeError>)
    ensures r == None <==>
      NumericIfGiven(data.civilId) && NumericIfGiven(data.militaryId) && !(Given(data.fullName) && IsBlank(data.fullName.value))
  {
    if Given(data.civilId) && IsBlank(data.civilId.value) then Some(CivilIdEmpty)
    else if Given(data.civilId) && !IsDigits(Trim(data.civilId.value)) then Some(CivilIdNotNumeric)
    else if Given(data.militaryId) && IsBlank(data.militaryId.value) then Some(MilitaryIdEmpty)
    else if Given(data.militaryId) && !IsDigits(Trim(data.militaryId.value)) then Some(MilitaryIdNotNumeric)
    else if Given(data.fullName) && IsBlank(data.fullName.value) then Some(FullNameEmpty)
    else None
  }

  /** The checks run in source order: each message is reported exactly when every earlier check passed and its own failed. */
  lemma UpdateInputChecksInOrder(data: TraineeData)
    ensures UpdateInputError(data) == Some(CivilIdEmpty) <==> Given(data.civilId) && IsBlank(data.civilId.value)
    ensures UpdateInputError(data) == Some(CivilIdNotNumeric) <==>
      Given(data.civilId) && !IsBlank(data.civilId.value) && !NumericIfGiven(data.civilId)
    ensures UpdateInputError(data) == Some(MilitaryIdEmpty) <==>
      NumericIfGiven(data.civilId) && Given(data.militaryId) && IsBlank(data.militaryId.value)
    ensures UpdateInputError(data) == Some(MilitaryIdNotNumeric) <==>
      NumericIfGiven(data.civilId) && Given(data.militaryId) && !IsBlank(data.militaryId.value)
      && !NumericIfGiven(data.militaryId)
    ensures UpdateInputError(data) == Some(FullNameEmpty) <==>
      NumericIfGiven(data.civilId) && NumericIfGiven(data.militaryId) && Given(data.fullName) && IsBlank(data.fullName.value)
  {
  }

  /** An empty-string field is falsy, so it passes every check of the guard chain. */
  lemma EmptyFieldsPassUpdateChecks(data: TraineeData)
    requires data.civilId == Some("") && data.militaryId == Some("") && data.fullName == Some("")
    ensures UpdateInputError(data) == None
  {
  }

  /** A field of white space only is truthy and rejected. */
  lemma BlankCivilIdRejected(data: TraineeData, blank: string)
    requires blank != "" && IsBlank(blank) && data.civilId == Some(blank)
    ensures UpdateInputError(data) == Some(CivilIdEmpty)
  {
  }

  /** The first failing check of the whole of `updateTrainee`: the body, the trainee, then each reference supplied. */
  function UpdateError(id: Id, data: TraineeData, trainees: map<Id, Trainee>, shifts: map<Id, Shift>,
                       ranks: map<Id, Rank>, specializations: map<Id, Specialization>): (r: Option<TraineeError>)
    ensures r == None <==>
      && UpdateInputError(data).None? && id in trainees
      && (data.rankId.Some? ==> data.rankId.value in ranks)
      && (data.specialtyId.Some? ==> data.specialtyId.value in specializations)
      && (data.shiftId.Some? ==> data.shiftId.value in shifts)
    ensures UpdateInputError(data).Some? ==> r == UpdateInputError(data)
  {
    var e := UpdateInputError(data);
    if e.Some? then e
    else if id !in trainees then Some(TraineeNotFound)
    else if data.rankId.Some? && data.rankId.value !in ranks then Some(RankNotFound)
    else if data.specialtyId.Some? && data.specialtyId.value !in specializations then Some(SpecializationNotFound)
    else if data.shiftId.Some? && data.shiftId.value !in shifts then Some(ShiftNotFound)
    else None
  }

  /** After the body's checks the trainee is looked up first, so an unknown id is reported before any reference. */
  lemma UpdateLookupsInOrder(id: Id, data: TraineeData, trainees: map<Id, Trainee>, shifts: map<Id, Shift>,
                             ranks: map<Id, Rank>, specializations: map<Id, Specialization>)
    ensures UpdateError(id, data, trainees, shifts, ranks, specializations) == Some(TraineeNotFound) <==> UpdateInputError(data).None? && id !in trainees
    ensures UpdateError(id, data, trainees, shifts, ranks, specializations) == Some(RankNotFound) <==>
      UpdateInputError(data).None? && id in trainees && data.rankId.Some? && data.rankId.value !in ranks
    ensures UpdateError(id, data, trainees, shifts, ranks, specializations) == Some(SpecializationNotFound) <==>
      && UpdateInputError(data).None? && id in trainees && (data.rankId.Some? ==> data.rankId.value in ranks)
      && data.specialtyId.Some? && data.specialtyId.value !in specializations
    ensures UpdateError(id, data, trainees, shifts, ranks, specializations) == Some(ShiftNotFound) <==>
      && UpdateInputError(data).None? && id in trainees && (data.rankId.Some? ==> data.rankId.value in ranks)
      && (data.specialtyId.Some? ==> data.specialtyId.value in specializations)
      && data.shiftId.Some? && data.shiftId.value !in shifts
  {
  }

  /** A string field after `findByIdAndUpdate(id, data)`: the update's setter trims a supplied value. */
  function Updated(field: Option<string>, current: string): (r: string)
    ensures field.None? ==> r == current
    ensures field.Some? ==> r == Trim(field.value)
  {
    if field.Some? then Trim(field.value) else current
  }

  /** The trainee after `findByIdAndUpdate(id, data)`: each supplied field replaced, every other field kept. */
  function Edited(t: Trainee, data: TraineeData): (r: Trainee)
    ensures r.civilId == Updated(data.civilId, t.civilId)
    ensures r.militaryId == Updated(data.militaryId, t.militaryId)
    ensures r.fullName == Updated(data.fullName, t.fullName)
    ensures r.rankId == data.rankId.GetOr(t.rankId)
    ensures r.specialtyId == data.specialtyId.GetOr(t.specialtyId)
    ensures r.shiftId == data.shiftId.GetOr(t.shiftId)
  {
    Trainee(Updated(data.civilId, t.civilId), Updated(data.militaryId, t.militaryId),
            Updated(data.fullName, t.fullName), data.rankId.GetOr(t.rankId),
            data.specialtyId.GetOr(t.specialtyId), data.shiftId.GetOr(t.shiftId))
  }

  /** Whether the update moves the trainee: a shift is supplied and differs from the current one. */
  predicate Moves(t: Trainee, data: TraineeData)
    ensures Moves(t, data) <==> data.shiftId.Some? && Edited(t, data).shiftId != t.shiftId
  {
    data.shiftId.Some? && data.shiftId.value != t.shiftId
  }

  /**
   * `updateTrainee`: a failed check changes nothing; otherwise the supplied
   * fields are written and, when the shift changes, the trainee is pulled from
   * the old shift's list and pushed onto the new one.
   */
  method UpdateTrainee(db: Database, id: Id, data: TraineeData) returns (r: Result<Trainee>)
    requires db.Valid()
    modifies db
    ensures db.Valid()
    ensures var e := UpdateError(id, data, old(db.trainees), old(db.shifts), old(db.ranks), old(db.specializations));
      e.Some? ==> r == Failure(Message(e.value)) && unchanged(db)
    ensures UpdateError(id, data, old(db.trainees), old(db.shifts), old(db.ranks), old(db.specializations)).None? ==>
      && r == Success(Edited(old(db.trainees)[id], data))
      && db.trainees == old(db.trainees)[id := r.value]
      && db.shifts == (if Moves(old(db.trainees)[id], data)
                       then Push(Pull(old(db.shifts), old(db.trainees)[id].shiftId, id), data.shiftId.value, id)
                       else old(db.shifts))
      && db.ranks == old(db.ranks) && db.specializations == old(db.specializations) && db.nextId == old(db.nextId)
  {
    var e := UpdateInputError(data);
    if e.Some? {
      return Failure(Message(e.value));
    }
    if id !in db.trainees {
      return Failure(Message(TraineeNotFound));
    }
    var current := db.trainees[id];
    if data.rankId.Some? && data.rankId.value !in db.ranks {
      return Failure(Message(RankNotFound));
    }
    if data.specialtyId.Some? && data.specialtyId.value !in db.specializations {
      return Failure(Message(SpecializationNotFound));
    }
    if data.shiftId.Some? && data.shiftId.value !in db.shifts {
      return Failure(Message(ShiftNotFound));
    }
    var edited := Edited(current, data);
    Save(db, id, edited);
    r := Success(edited);
  }

  /**
   * `findByIdAndUpdate` of a trainee, after the move between shift lists when
   * the shift changes.
   */
  method Save(db: Database, id: Id, t: Trainee)
    requires db.Valid() && id in db.trainees
    requires t.shiftId == db.trainees[id].shiftId || t.shiftId in db.shifts
    modifies db
    ensures db.Valid()
    ensures db.trainees == old(db.trainees)[id := t]
    ensures db.shifts == (if t.shiftId != old(db.trainees)[id].shiftId
                          then Push(Pull(old(db.shifts), old(db.trainees)[id].shiftId, id), t.shiftId, id)
                          else old(db.shifts))
    ensures db.ranks == old(db.ranks) && db.specializations == old(db.specializations) && db.nextId == old(db.nextId)
  {
    var from := db.trainees[id].shiftId;
    if t.shiftId != from {
      MoveKeepsInStep(db.trainees, db.shifts, db.nextId, id, t);
      db.shifts := Push(Pull(db.shifts, from, id), t.shiftId, id);
    } else {
      EditKeepsInStep(db.trainees, db.shifts, db.nextId, id, t);
    }
    db.trainees := db.trainees[id := t];
  }

  /** `deleteTrainee`: an unknown id fails; otherwise the trainee is gone and pulled from its shift's list. */
  method DeleteTrainee(db: Database, id: Id) returns (r: Result<Trainee>)
    requires db.Valid()
    modifies db
    ensures db.Valid()
    ensures id !in old(db.trainees) ==> r == Failure(Message(TraineeNotFound)) && unchanged(db)
    ensures id in old(db.trainees) ==>
      && r == Success(old(db.trainees)[id])
      && db.trainees == old(db.trainees) - {id}
      && db.shifts == Pull(old(db.shifts), r.value.shiftId, id)
      && db.ranks == old(db.ranks) && db.specializations == old(db.specializations) && db.nextId == old(db.nextId)
  {
    if id !in db.trainees {
      return Failure(Message(TraineeNotFound));
    }
    var trainee := db.trainees[id];
    DeleteKeepsInStep(db.trainees, db.shifts, db.nextId, id);
    db.trainees := db.trainees - {id};
    db.shifts := Pull(db.shifts, trainee.shiftId, id);
    r := Success(trainee);
  }

  /** After a delete no shift lists the trainee any more. */
  lemma DeletedIsUnlisted(trainees: map<Id, Trainee>, shifts: map<Id, Shift>, nextId: Id, id: Id)
    requires InStep(trainees, shifts, nextId) && id in trainees
    ensures forall s :: s in Pull(shifts, trainees[id].shiftId, id) ==> id !in Pull(shifts, trainees[id].shiftId, id)[s].trainees
  {
  }
}
