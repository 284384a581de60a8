/**
 * `SpecializationService`: creating, renaming and deleting specialization
 * documents behind a guard on the name. The schema trims the name, on a save
 * and on an update alike.
 */
module SpecializationService {
  import opened Wrappers
  import opened Text
  import opened Store

  /** The errors the service throws. */
  datatype SpecializationError = NameRequired | SpecializationNotFound

  function Message(e: SpecializationError): string {
    match e
    case NameRequired => "Specialization name is required"
    case SpecializationNotFound => "Specialization not found"
  }

  /** The document a name is stored as: trimmed by the schema, so never empty once the guard passed. */
  function Named(name: string): (s: Specialization)
    requires !IsBlank(name)
    ensures s.name != [] && !IsSpace(s.name[0]) && !IsSpace(s.name[|s.name| - 1])
  {
    Specialization(Trim(name))
  }

  /** Renaming a specialization to the name it has stored keeps it as it is. */
  lemma StoredNameIsStable(name: string)
    requires !IsBlank(name)
    ensures !IsBlank(Named(name).name) && Named(Named(name).name) == Named(name)
  {
    TrimIdempotent(name);
  }

  /** `createSpecialization`: a missing or blank name changes nothing; otherwise exactly one specialization is added under a fresh id. */
  method CreateSpecialization(db: Database, name: Option<string>) returns (r: Result<Id>)
    requires db.Valid()
    modifies db
    ensures db.Valid()
    ensures !Filled(name) ==> r == Failure(Message(NameRequired)) && unchanged(db)
    ensures Filled(name) ==>
      && r == Success(old(db.nextId)) && r.value !in old(db.specializations)
      && db.specializations == old(db.specializations)[r.value := Named(name.value)]
      && db.trainees == old(db.trainees) && db.shifts == old(db.shifts)
      && db.ranks == old(db.ranks) && db.nextId == old(db.nextId) + 1
  {
    if !Filled(name) {
      return Failure(Message(NameRequired));
    }
    var id := Insert(db, Named(name.value));
    r := Success(id);
  }

  /** `specialization.save()` of a new document under a fresh id. */
  method Insert(db: Database, specialization: Specialization) returns (id: Id)
    requires db.Valid()
    modifies db
    ensures db.Valid()
    ensures id == old(db.nextId) && id !in old(db.specializations)
    ensures db.specializations == old(db.specializations)[id := specialization]
    ensures db.trainees == old(db.trainees) && db.shifts == old(db.shifts)
    ensures db.ranks == old(db.ranks) && db.nextId == old(db.nextId) + 1
  {
    id := db.NewId();
    db.specializations := db.specializations[id := specialization];
  }

  /**
   * `updateSpecialization`: a missing or blank name fails before the store is
   * touched; an unknown id yields no document (`null`) and changes nothing;
   * otherwise only that specialization's name changes.
   */
  method UpdateSpecialization(db: Database, id: Id, name: Option<string>) returns (r: Result<Option<Specialization>>)
    requires db.Valid()
    modifies db`specializations
    ensures db.Valid()
    ensures !Filled(name) ==> r == Failure(Message(NameRequired)) && db.specializations == old(db.specializations)
    ensures Filled(name) && id !in old(db.specializations) ==>
      r == Success(None) && db.specializations == old(db.specializations)
    ensures Filled(name) && id in old(db.specializations) ==>
      && r == Success(Some(Named(name.value)))
      && db.specializations == old(db.specializations)[id := Named(name.value)]
  {
    if !Filled(name) {
      return Failure(Message(NameRequired));
    }
    if id !in db.specializations {
      return Success(None);
    }
    var specialization := Named(name.value);
    db.specializations := db.specializations[id := specialization];
    r := Success(Some(specialization));
  }

  /** `deleteSpecialization`: an unknown id fails; otherwise the specialization is gone. */
  method DeleteSpecialization(db: Database, id: Id) returns (r: Result<Specialization>)
    requires db.Valid()
    modifies db`specializations
    ensures db.Valid()
    ensures id !in old(db.specializations) ==>
      r == Failure(Message(SpecializationNotFound)) && db.specializations == old(db.specializations)
    ensures id in old(db.specializations) ==>
      r == Success(old(db.specializations)[id]) && db.specializations == old(db.specializations) - {id}
  {
    if id !in db.specializations {
      return Failure(Message(SpecializationNotFound));
    }
    r := Success(db.specializations[id]);
    db.specializations := db.specializations - {id};
  }
}
