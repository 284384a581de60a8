/**
 * `RankService`: creating, renaming and deleting rank documents behind a
 * guard on the name. The Rank schema is not part of this model, so a name is
 * stored as the request gives it.
 */
module RankService {
  import opened Wrappers
  import opened Text
  import opened Store

  /** The errors the service throws. */
  datatype RankError = NameRequired | RankNotFound

  function Message(e: RankError): string {
    match e
    case NameRequired => "Rank name is required"
    case RankNotFound => "Rank not found"
  }

  /** `createRank`: a missing or blank name changes nothing; otherwise exactly one rank with that name is added under a fresh id. */
  method CreateRank(db: Database, name: Option<string>) returns (r: Result<Id>)
    requires db.Valid()
    modifies db
    ensures db.Valid()
    ensures !Filled(name) ==> r == Failure(Message(NameRequired)) && unchanged(db)
    ensures Filled(name) ==>
      && r == Success(old(db.nextId)) && r.value !in old(db.ranks)
      && db.ranks == old(db.ranks)[r.value := Rank(name.value)]
      && db.trainees == old(db.trainees) && db.shifts == old(db.shifts)
      && db.specializations == old(db.specializations) && db.nextId == old(db.nextId) + 1
  {
    if !Filled(name) {
      return Failure(Message(NameRequired));
    }
    var id := Insert(db, Rank(name.value));
    r := Success(id);
  }

  /** `rank.save()` of a new document under a fresh id. */
  method Insert(db: Database, rank: Rank) returns (id: Id)
    requires db.Valid()
    modifies db
    ensures db.Valid()
    ensures id == old(db.nextId) && id !in old(db.ranks)
    ensures db.ranks == old(db.ranks)[id := rank]
    ensures db.trainees == old(db.trainees) && db.shifts == old(db.shifts)
    ensures db.specializations == old(db.specializations) && db.nextId == old(db.nextId) + 1
  {
    id := db.NewId();
    db.ranks := db.ranks[id := rank];
  }

  /**
   * `updateRank`: a missing or blank name fails before the store is touched;
   * an unknown id yields no document (`null`) and changes nothing; otherwise
   * only that rank's name changes.
   */
  method UpdateRank(db: Database, id: Id, name: Option<string>) returns (r: Result<Option<Rank>>)
    requires db.Valid()
    modifies db`ranks
    ensures db.Valid()
    ensures !Filled(name) ==> r == Failure(Message(NameRequired)) && db.ranks == old(db.ranks)
    ensures Filled(name) && id !in old(db.ranks) ==> r == Success(None) && db.ranks == old(db.ranks)
    ensures Filled(name) && id in old(db.ranks) ==>
      r == Success(Some(Rank(name.value))) && db.ranks == old(db.ranks)[id := Rank(name.value)]
  {
    if !Filled(name) {
      return Failure(Message(NameRequired));
    }
    if id !in db.ranks {
      return Success(None);
    }
    var rank := db.ranks[id].(name := name.value);
    db.ranks := db.ranks[id := rank];
    r := Success(Some(rank));
  }

  /** `deleteRank`: an unknown id fails; otherwise the rank is gone, and trainees keep their now dangling references to it. */
  method DeleteRank(db: Database, id: Id) returns (r: Result<Rank>)
    requires db.Valid()
    modifies db`ranks
    ensures db.Valid()
    ensures id !in old(db.ranks) ==> r == Failure(Message(RankNotFound)) && db.ranks == old(db.ranks)
    ensures id in old(db.ranks) ==> r == Success(old(db.ranks)[id]) && db.ranks == old(db.ranks) - {id}
  {
    if id !in db.ranks {
      return Failure(Message(RankNotFound));
    }
    r := Success(db.ranks[id]);
    db.ranks := db.ranks - {id};
  }
}
