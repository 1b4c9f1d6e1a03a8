/** Rank normalisation within cells: each security is ranked against its own cell only. */
module CellRanks {
  import opened Grouping
  import opened Ordering
  import opened Ranks
  import opened Wrappers

  /** cells.get(security_id) */
  function CellOf(cells: map<Id, Id>): Id -> Option<Id> {
    id => if id in cells then Some(cells[id]) else None
  }

  /** The covered members of a cell, in dictionary order. */
  function CellIds(values: map<Id, Option<real>>, ids: seq<Id>, cells: map<Id, Id>, cell: Id): seq<Id> {
    Having(CoveredIds(values, ids), CellOf(cells), Some(cell))
  }

  function Only(values: map<Id, Option<real>>, members: seq<Id>): map<Id, Option<real>> {
    map k | k in members && k in values :: values[k]
  }

  function ScoresOf(scores: map<Id, real>, members: seq<Id>): map<Id, real> {
    map k | k in members && k in scores :: scores[k]
  }

  /** The scores of one cell are those of its own members ranked alone. */
  ghost predicate CellNormalized(
      scores: map<Id, real>, values: map<Id, Option<real>>, members: seq<Id>, direction: Direction, tieRule: TieRule)
  {
    IsNormalized(ScoresOf(scores, members), Covered(Only(values, members)), CoveredIds(Only(values, members), members), direction, tieRule)
  }

  lemma {:induction false} DistinctHaving<R, K>(s: seq<R>, key: R -> K, k: K)
    requires Distinct(s)
    ensures Distinct(Having(s, key, k))
    decreases |s|
  {
    if s != [] {
      var n := |s| - 1;
      DistinctHaving(s[..n], key, k);
      HavingMembers(s[..n], key, k);
      assert s[n] !in s[..n];
    }
  }

  /** What the loop over cells keeps: the cells already ranked are right, and nothing else is scored. */
  ghost predicate RankedCells(
      scores: map<Id, real>, done: set<Id>, values: map<Id, Option<real>>, ids: seq<Id>, cells: map<Id, Id>,
      direction: Direction, tieRule: TieRule)
  {
    && (forall k :: k in scores <==> k in Covered(values) && k in cells && cells[k] in done)
    && (forall cell :: cell in done ==> CellNormalized(scores, values, CellIds(values, ids, cells, cell), direction, tieRule))
  }

  /** The ids of a cross-section, each once, in dictionary order. */
  ghost predicate Listing(ids: seq<Id>, values: map<Id, Option<real>>) {
    Distinct(ids) && forall k :: k in ids <==> k in values
  }

  lemma CoveredListing(values: map<Id, Option<real>>, ids: seq<Id>)
    requires Listing(ids, values)
    ensures forall k :: k in CoveredIds(values, ids) <==> k in Covered(values)
    ensures Distinct(CoveredIds(values, ids))
  {
    CoveredIdsFacts(values, ids);
  }

  lemma CellMembers(values: map<Id, Option<real>>, ids: seq<Id>, cells: map<Id, Id>, cell: Id)
    requires Listing(ids, values)
    ensures forall k :: k in CellIds(values, ids, cells, cell) <==> k in Covered(values) && k in cells && cells[k] == cell
    ensures Distinct(CellIds(values, ids, cells, cell))
  {
    hide Having, CoveredIds, Distinct, Listing, Covered;
    CoveredListing(values, ids);
    HavingMembers(CoveredIds(values, ids), CellOf(cells), Some(cell));
    DistinctHaving(CoveredIds(values, ids), CellOf(cells), Some(cell));
  }

  lemma RankOneMore(
      scores: map<Id, real>, done: set<Id>, values: map<Id, Option<real>>, ids: seq<Id>, cells: map<Id, Id>,
      direction: Direction, tieRule: TieRule, cell: Id, ranked: map<Id, real>)
    requires Listing(ids, values)
    requires RankedCells(scores, done, values, ids, cells, direction, tieRule) && cell !in done
    requires forall k :: k in ranked <==> k in CellIds(values, ids, cells, cell)
    requires var members := CellIds(values, ids, cells, cell);
             IsNormalized(ranked, Covered(Only(values, members)), CoveredIds(Only(values, members), members), direction, tieRule)
    ensures RankedCells(scores + ranked, done + {cell}, values, ids, cells, direction, tieRule)
  {
    hide IsNormalized, CellNormalized, CellIds, Covered, CoveredIds, Only, Listing, Distinct;
    CellMembers(values, ids, cells, cell);
    RankedNow(scores, ranked, values, CellIds(values, ids, cells, cell), direction, tieRule);
    forall c | c in done ensures CellNormalized(scores + ranked, values, CellIds(values, ids, cells, c), direction, tieRule) {
      CellMembers(values, ids, cells, c);
      StillRanked(scores, ranked, values, CellIds(values, ids, cells, c), direction, tieRule);
    }
  }

  lemma RankedNow(
      scores: map<Id, real>, ranked: map<Id, real>, values: map<Id, Option<real>>, members: seq<Id>,
      direction: Direction, tieRule: TieRule)
    requires forall k :: k in ranked <==> k in members
    requires IsNormalized(ranked, Covered(Only(values, members)), CoveredIds(Only(values, members), members), direction, tieRule)
    ensures CellNormalized(scores + ranked, values, members, direction, tieRule)
  {
    hide IsNormalized, Covered, CoveredIds, Only;
    assert ScoresOf(scores + ranked, members) == ranked;
  }

  lemma StillRanked(
      scores: map<Id, real>, ranked: map<Id, real>, values: map<Id, Option<real>>, members: seq<Id>,
      direction: Direction, tieRule: TieRule)
    requires CellNormalized(scores, values, members, direction, tieRule) && forall k :: k in members ==> k !in ranked
    ensures CellNormalized(scores + ranked, values, members, direction, tieRule)
  {
    hide IsNormalized, Covered, CoveredIds, Only;
    assert ScoresOf(scores + ranked, members) == ScoresOf(scores, members);
  }

  lemma NoneRanked(values: map<Id, Option<real>>, ids: seq<Id>, cells: map<Id, Id>, direction: Direction, tieRule: TieRule)
    ensures RankedCells(map[], {}, values, ids, cells, direction, tieRule)
  {
  }

  /** The cells that have a covered member. */
  function CellsPresent(values: map<Id, Option<real>>, cells: map<Id, Id>): set<Id> {
    set k | k in Covered(values) && k in cells :: cells[k]
  }

  /**
   * Ranks each cell's covered members alone, cell by cell in ascending order. A covered security
   * without a cell gets no score.
   */
  method RankNormalizeByCell(
      values: map<Id, Option<real>>, ids: seq<Id>, cells: map<Id, Id>, direction: Direction, tieRule: TieRule)
    returns (scores: map<Id, real>)
    requires Listing(ids, values)
    ensures forall k :: k in scores <==> k in Covered(values) && k in cells
    ensures forall cell :: cell in CellsPresent(values, cells) ==>
              CellNormalized(scores, values, CellIds(values, ids, cells, cell), direction, tieRule)
  {
    hide RankedCells, IsNormalized, CellNormalized, CellIds, CoveredIds, Covered, Only, Listing;
    var todo := CellsPresent(values, cells);
    ghost var done: set<Id> := {};
    scores := map[];
    NoneRanked(values, ids, cells, direction, tieRule);
    hide CellsPresent;
    while todo != {}
      invariant done + todo == CellsPresent(values, cells) && done !! todo
      invariant RankedCells(scores, done, values, ids, cells, direction, tieRule)
      decreases |todo|
    {
      var cell := Least(todo);
      var members := CellIds(values, ids, cells, cell);
      CellMembers(values, ids, cells, cell);
      AllCovered(values, members);
      var ranked := RankNormalize(Only(values, members), members, direction, tieRule);
      RankOneMore(scores, done, values, ids, cells, direction, tieRule, cell, ranked);
      scores := scores + ranked;
      done := done + {cell};
      todo := todo - {cell};
    }
    AllRanked(scores, done, values, ids, cells, direction, tieRule);
  }

  lemma AllCovered(values: map<Id, Option<real>>, members: seq<Id>)
    requires forall k :: k in members ==> k in Covered(values)
    ensures forall k :: k in members <==> k in Only(values, members)
    ensures forall k :: k in members <==> k in Covered(Only(values, members)).Keys
  {
  }

  lemma AllRanked(
      scores: map<Id, real>, done: set<Id>, values: map<Id, Option<real>>, ids: seq<Id>, cells: map<Id, Id>,
      direction: Direction, tieRule: TieRule)
    requires RankedCells(scores, done, values, ids, cells, direction, tieRule) && done == CellsPresent(values, cells)
    ensures forall k :: k in scores <==> k in Covered(values) && k in cells
    ensures forall cell :: cell in CellsPresent(values, cells) ==>
              CellNormalized(scores, values, CellIds(values, ids, cells, cell), direction, tieRule)
  {
    hide CellNormalized, CellIds;
  }

  // ---------------------------------------------------------------- locality

  lemma {:induction false} SameMembership(
      a: map<Id, Option<real>>, b: map<Id, Option<real>>, ids: seq<Id>, cells: map<Id, Id>, cell: Id)
    requires forall k :: k in ids ==> k in a && k in b
    requires forall k :: k in ids && k in cells && cells[k] == cell ==> a[k] == b[k]
    ensures CellIds(a, ids, cells, cell) == CellIds(b, ids, cells, cell)
    decreases |ids|
  {
    if ids != [] {
      var n := |ids| - 1;
      SameMembership(a, b, ids[..n], cells, cell);
      assert ids[n] in ids;
      OneMoreMember(a, ids, cells, cell);
      OneMoreMember(b, ids, cells, cell);
      hide CellIds;
    }
  }

  lemma OneMoreMember(values: map<Id, Option<real>>, ids: seq<Id>, cells: map<Id, Id>, cell: Id)
    requires ids != [] && ids[|ids| - 1] in values
    ensures var n := |ids| - 1;
            CellIds(values, ids, cells, cell)
            == CellIds(values, ids[..n], cells, cell)
               + if values[ids[n]].Some? && ids[n] in cells && cells[ids[n]] == cell then [ids[n]] else []
  {
    var n := |ids| - 1;
    HavingAppend(CoveredIds(values, ids[..n]), ids[n], CellOf(cells), Some(cell));
    hide Having;
    assert CoveredIds(values, ids[..n]) + [] == CoveredIds(values, ids[..n]);
  }

  /** A cell's scores do not depend on any value outside the cell. */
  lemma CellsAreLocal(
      a: map<Id, Option<real>>, b: map<Id, Option<real>>, ids: seq<Id>, cells: map<Id, Id>, cell: Id,
      direction: Direction, tieRule: TieRule, sa: map<Id, real>, sb: map<Id, real>, k: Id)
    requires Listing(ids, a) && Listing(ids, b)
    requires forall j :: j in ids && j in cells && cells[j] == cell ==> a[j] == b[j]
    requires CellNormalized(sa, a, CellIds(a, ids, cells, cell), direction, tieRule)
    requires CellNormalized(sb, b, CellIds(b, ids, cells, cell), direction, tieRule)
    requires k in CellIds(a, ids, cells, cell)
    ensures k in sa && k in sb && sa[k] == sb[k]
  {
    hide CellIds, AverageRank, IdRank, CoveredIds;
    SameMembership(a, b, ids, cells, cell);
    var members := CellIds(a, ids, cells, cell);
    CellMembers(a, ids, cells, cell);
    CellMembers(b, ids, cells, cell);
    assert Only(a, members) == Only(b, members);
    AllCovered(a, members);
    CoveredIdsFacts(Only(a, members), members);
    assert k in ScoresOf(sa, members) && k in ScoresOf(sb, members);
  }
}
