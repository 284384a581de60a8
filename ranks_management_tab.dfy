/**
 * The settings tab that manages ranks in memory: a list of `{id, name}`
 * entries, an add dialog, a delete confirmation and an edit dialog.
 */
module RanksManagementTab {
  import opened Wrappers
  import opened Text
  import opened Lists

  datatype RankEntry = RankEntry(id: string, name: string)

  /** The list the tab starts with. */
  const InitialRanks: seq<RankEntry> := [RankEntry("1", "جندي"), RankEntry("2", "عريف")]

  /** A JavaScript `string | null` in a condition: neither null nor empty. */
  predicate Truthy(id: Option<string>) {
    id.Some? && id.value != ""
  }

  /** The filter callback `(r) => r.id !== id`. */
  function IdIsNot(id: string): RankEntry -> bool {
    (r: RankEntry) => r.id != id
  }

  /** `ranks.filter((r) => r.id !== id)`: every entry with that id gone, the others kept in order. */
  function WithoutId(ranks: seq<RankEntry>, id: string): (r: seq<RankEntry>)
    ensures forall i :: 0 <= i < |r| ==> r[i] in ranks && r[i].id != id
    ensures forall i :: 0 <= i < |ranks| && ranks[i].id != id ==> ranks[i] in r
  {
    Filter(ranks, IdIsNot(id))
  }

  /** Deleting an id that no entry carries leaves the list as it was. */
  lemma WithoutAbsentId(ranks: seq<RankEntry>, id: string)
    requires forall i :: 0 <= i < |ranks| ==> ranks[i].id != id
    ensures WithoutId(ranks, id) == ranks
  {
    FilterAll(ranks, IdIsNot(id));
  }

  /** Deleting from a list in two parts deletes from each and keeps the parts in order. */
  lemma WithoutIdConcat(a: seq<RankEntry>, b: seq<RankEntry>, id: string)
    ensures WithoutId(a + b, id) == WithoutId(a, id) + WithoutId(b, id)
  {
    FilterConcat(a, b, IdIsNot(id));
  }

  /**
   * `ranks.map((r) => r.id === id ? { ...r, name } : r)`: the same entries in the
   * same order, renamed where the id matches.
   */
  function Renamed(ranks: seq<RankEntry>, id: string, name: string): (r: seq<RankEntry>)
    ensures |r| == |ranks|
    ensures forall i :: 0 <= i < |r| ==> r[i].id == ranks[i].id
    ensures forall i :: 0 <= i < |r| ==> r[i].name == (if ranks[i].id == id then name else ranks[i].name)
  {
    if ranks == [] then []
    else
      var head := if ranks[0].id == id then ranks[0].(name := name) else ranks[0];
      [head] + Renamed(ranks[1..], id, name)
  }

  /** Renaming an id that no entry carries leaves the list as it was. */
  lemma RenameAbsentId(ranks: seq<RankEntry>, id: string, name: string)
    requires forall i :: 0 <= i < |ranks| ==> ranks[i].id != id
    ensures Renamed(ranks, id, name) == ranks
  {
    var r := Renamed(ranks, id, name);
    assert forall i :: 0 <= i < |r| ==> r[i] == ranks[i];
  }

  /** Renaming twice to the same name is renaming once. */
  lemma RenameIdempotent(ranks: seq<RankEntry>, id: string, name: string)
    ensures Renamed(Renamed(ranks, id, name), id, name) == Renamed(ranks, id, name)
  {
    var once := Renamed(ranks, id, name);
    var twice := Renamed(once, id, name);
    assert forall i :: 0 <= i < |twice| ==> twice[i] == once[i];
  }

  /** Renaming keeps the ids, so it does not change what a later delete removes. */
  lemma {:induction false} RenameThenDelete(ranks: seq<RankEntry>, id: string, name: string)
    ensures |WithoutId(Renamed(ranks, id, name), id)| == |WithoutId(ranks, id)|
  {
    if ranks != [] {
      var r := Renamed(ranks, id, name);
      assert r[1..] == Renamed(ranks[1..], id, name);
      assert r[0].id == ranks[0].id;
      RenameThenDelete(ranks[1..], id, name);
    }
  }

  /** The tab's state. */
  class RanksTab {
    var ranks: seq<RankEntry>
    var rankName: string
    var dialogOpen: bool
    var editingRankId: Option<string>
    var editingRankName: string
    var editDialogOpen: bool
    var deleteConfirmOpen: bool
    var deleteTargetId: Option<string>
    var deleteTargetName: string

    constructor()
      ensures ranks == InitialRanks && rankName == "" && !dialogOpen
      ensures editingRankId == None && editingRankName == "" && !editDialogOpen
      ensures !deleteConfirmOpen && deleteTargetId == None && deleteTargetName == ""
    {
      ranks := InitialRanks;
      rankName := "";
      dialogOpen := false;
      editingRankId := None;
      editingRankName := "";
      editDialogOpen := false;
      deleteConfirmOpen := false;
      deleteTargetId := None;
      deleteTargetName := "";
    }

    /** Typing into the add dialog's name field. */
    method SetRankName(name: string)
      modifies this`rankName
      ensures rankName == name
    {
      rankName := name;
    }

    /**
     * `handleAddRank`, with `freshId` standing for `Math.random().toString()`:
     * a blank name changes nothing; otherwise the entry is appended and the
     * dialog closes with its field cleared.
     */
    method HandleAddRank(freshId: string)
      modifies this`ranks, this`rankName, this`dialogOpen
      ensures IsBlank(old(rankName)) ==> ranks == old(ranks) && rankName == old(rankName) && dialogOpen == old(dialogOpen)
      ensures !IsBlank(old(rankName)) ==>
        && ranks == old(ranks) + [RankEntry(freshId, old(rankName))]
        && rankName == "" && !dialogOpen
    {
      if IsBlank(rankName) {
        return;
      }
      var newRank := RankEntry(freshId, rankName);
      ranks := ranks + [newRank];
      rankName := "";
      dialogOpen := false;
    }

    /** `handleDeleteRank`: remembers the target and opens the confirmation. */
    method HandleDeleteRank(id: string, name: string)
      modifies this`deleteTargetId, this`deleteTargetName, this`deleteConfirmOpen
      ensures deleteTargetId == Some(id) && deleteTargetName == name && deleteConfirmOpen
    {
      deleteTargetId := Some(id);
      deleteTargetName := name;
      deleteConfirmOpen := true;
    }

    /** `confirmDelete`: without a target nothing happens; otherwise the target's entries go and the target is cleared. */
    method ConfirmDelete()
      modifies this`ranks, this`deleteTargetId, this`deleteTargetName
      ensures !Truthy(old(deleteTargetId)) ==>
        ranks == old(ranks) && deleteTargetId == old(deleteTargetId) && deleteTargetName == old(deleteTargetName)
      ensures Truthy(old(deleteTargetId)) ==>
        && ranks == WithoutId(old(ranks), old(deleteTargetId).value)
        && deleteTargetId == None && deleteTargetName == ""
    {
      if Truthy(deleteTargetId) {
        ranks := WithoutId(ranks, deleteTargetId.value);
        deleteTargetId := None;
        deleteTargetName := "";
      }
    }

    /** `handleEditRank`: loads an entry into the edit dialog and opens it. */
    method HandleEditRank(rank: RankEntry)
      modifies this`editingRankId, this`editingRankName, this`editDialogOpen
      ensures editingRankId == Some(rank.id) && editingRankName == rank.name && editDialogOpen
    {
      editingRankId := Some(rank.id);
      editingRankName := rank.name;
      editDialogOpen := true;
    }

    /** Typing into the edit dialog's name field. */
    method SetEditingRankName(name: string)
      modifies this`editingRankName
      ensures editingRankName == name
    {
      editingRankName := name;
    }

    /**
     * `handleUpdateRank`: a blank name or no edited id changes nothing;
     * otherwise the matching entries are renamed and the dialog closes cleared.
     */
    method HandleUpdateRank()
      modifies this`ranks, this`editDialogOpen, this`editingRankId, this`editingRankName
      ensures IsBlank(old(editingRankName)) || !Truthy(old(editingRankId)) ==>
        && ranks == old(ranks) && editDialogOpen == old(editDialogOpen)
        && editingRankId == old(editingRankId) && editingRankName == old(editingRankName)
      ensures !(IsBlank(old(editingRankName)) || !Truthy(old(editingRankId))) ==>
        && ranks == Renamed(old(ranks), old(editingRankId).value, old(editingRankName))
        && !editDialogOpen && editingRankId == None && editingRankName == ""
    {
      if IsBlank(editingRankName) || !Truthy(editingRankId) {
        return;
      }
      ranks := Renamed(ranks, editingRankId.value, editingRankName);
      editDialogOpen := false;
      editingRankId := None;
      editingRankName := "";
    }
  }
}
