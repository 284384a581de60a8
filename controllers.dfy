/**
 * The one piece of the HTTP controllers in this model: how an update's outcome
 * becomes a status code. A thrown error is 400, a `null` document is 404, and
 * a document is 200.
 */
module Controllers {
  import opened Wrappers
  import opened Store
  import RankService
  import SpecializationService

  /** The status `res` answers an update with. */
  function UpdateStatus<T>(r: Result<Option<T>>): (code: int)
    ensures code == 400 <==> r.Failure?
    ensures code == 404 <==> r.Success? && r.value.None?
    ensures code == 200 <==> r.Success? && r.value.Some?
  {
    match r
    case Failure(_) => 400
    case Success(None) => 404
    case Success(Some(_)) => 200
  }

  /** `updateRank`: 400 for a missing or blank name, 404 for an unknown id, 200 otherwise. */
  method UpdateRank(db: Database, id: Id, name: Option<string>) returns (code: int)
    requires db.Valid()
    modifies db`ranks
    ensures db.Valid()
    ensures code == 400 <==> !Filled(name)
    ensures code == 404 <==> Filled(name) && id !in old(db.ranks)
    ensures code == 200 <==> Filled(name) && id in old(db.ranks)
  {
    var r := RankService.UpdateRank(db, id, name);
    code := UpdateStatus(r);
  }

  /** `updateSpecialization`: 400 for a missing or blank name, 404 for an unknown id, 200 otherwise. */
  method UpdateSpecialization(db: Database, id: Id, name: Option<string>) returns (code: int)
    requires db.Valid()
    modifies db`specializations
    ensures db.Valid()
    ensures code == 400 <==> !Filled(name)
    ensures code == 404 <==> Filled(name) && id !in old(db.specializations)
    ensures code == 200 <==> Filled(name) && id in old(db.specializations)
  {
    var r := SpecializationService.UpdateSpecialization(db, id, name);
    code := UpdateStatus(r);
  }
}
