/**
 The chart builder page: an in-memory draft (title, description and a list of
 positions) edited by `addPosition`, `updatePosition` and `removePosition`,
 and the validation and payload construction that `saveChart` performs before
 it hands the row to the datastore.
 */
module ChartBuilder {
  import opened Records
  import opened Seqs
  import opened Text

  // ---------------------------------------------------------------------------
  // The position list

  /** The list the builder starts with: one blank position with id 1. */
  function InitialPositions(): (ps: seq<Position>)
    ensures |ps| == 1 && ps[0].id == 1
    ensures forall f :: ps[0].Get(f) == ""
  {
    [BlankPosition(1)]
  }

  /** Ids strictly increase along the list (so, in particular, they are unique). */
  predicate IdsIncreasing(ps: seq<Position>) {
    forall i, j :: 0 <= i < j < |ps| ==> ps[i].id < ps[j].id
  }

  /** What every reachable position list satisfies: it is never empty, and its
      ids are positive and strictly increasing. */
  predicate ValidPositions(ps: seq<Position>) {
    && |ps| >= 1
    && IdsIncreasing(ps)
    && forall i :: 0 <= i < |ps| ==> ps[i].id >= 1
  }

  function Max(a: int, b: int): int {
    if a >= b then a else b
  }

  /** `Math.max(...positions.map(p => p.id), 0)`: the largest id, or 0. */
  function MaxId(ps: seq<Position>): (m: int)
    ensures m >= 0
    ensures forall i :: 0 <= i < |ps| ==> ps[i].id <= m
    ensures m == 0 || exists i :: 0 <= i < |ps| && ps[i].id == m
  {
    if |ps| == 0 then 0
    else
      var rest := MaxId(ps[1..]);
      assert rest == 0 || exists i :: 0 <= i < |ps| && ps[i].id == rest by {
        if rest != 0 {
          var k :| 0 <= k < |ps[1..]| && ps[1..][k].id == rest;
          assert ps[k + 1].id == rest;
        }
      }
      Max(ps[0].id, rest)
  }

  /** `addPosition`: append a blank position whose id is one more than the largest. */
  function AddPosition(ps: seq<Position>): (r: seq<Position>)
    ensures |r| == |ps| + 1
    ensures r[..|ps|] == ps
    ensures forall i :: 0 <= i < |ps| ==> ps[i].id < r[|ps|].id
    ensures r[|ps|].id >= 1
    ensures r[|ps|].id == MaxId(ps) + 1
    ensures forall f :: r[|ps|].Get(f) == ""
  {
    ps + [BlankPosition(MaxId(ps) + 1)]
  }

  /** `updatePosition(id, field, value)`: set `field` to `value` on the
      positions whose id is `id`. */
  function UpdatePosition(ps: seq<Position>, id: int, f: Field, v: string): (r: seq<Position>)
    ensures |r| == |ps|
    ensures forall i :: 0 <= i < |ps| ==> r[i].id == ps[i].id
    ensures forall i :: 0 <= i < |ps| && ps[i].id == id ==> r[i].Get(f) == v
    ensures forall i, g :: 0 <= i < |ps| && g != f ==> r[i].Get(g) == ps[i].Get(g)
    ensures forall i :: 0 <= i < |ps| && ps[i].id != id ==> r[i] == ps[i]
  {
    seq(|ps|, i requires 0 <= i < |ps| => if ps[i].id == id then ps[i].With(f, v) else ps[i])
  }

  /** With increasing ids, updating the id at index `i` rewrites exactly that
      one position. */
  lemma UpdateExactlyOne(ps: seq<Position>, id: int, f: Field, v: string, i: nat)
    requires IdsIncreasing(ps)
    requires i < |ps| && ps[i].id == id
    ensures UpdatePosition(ps, id, f, v) == ps[..i] + [ps[i].With(f, v)] + ps[i + 1..]
  {
    var r := UpdatePosition(ps, id, f, v);
    var expected := ps[..i] + [ps[i].With(f, v)] + ps[i + 1..];
    forall j | 0 <= j < |ps|
      ensures r[j] == expected[j]
    {
      if j != i {
        assert ps[j].id != id;
      }
    }
  }

  /** The contract of `UpdatePosition` leaves no freedom: any list meeting it
      is the updated list. */
  lemma UpdateContractDetermines(ps: seq<Position>, id: int, f: Field, v: string, r: seq<Position>)
    requires |r| == |ps|
    requires forall i :: 0 <= i < |ps| ==> r[i].id == ps[i].id
    requires forall i :: 0 <= i < |ps| && ps[i].id == id ==> r[i].Get(f) == v
    requires forall i, g :: 0 <= i < |ps| && g != f ==> r[i].Get(g) == ps[i].Get(g)
    requires forall i :: 0 <= i < |ps| && ps[i].id != id ==> r[i] == ps[i]
    ensures r == UpdatePosition(ps, id, f, v)
  {
    var u := UpdatePosition(ps, id, f, v);
    forall i | 0 <= i < |ps|
      ensures r[i] == u[i]
    {
      if ps[i].id == id {
        forall g
          ensures r[i].Get(g) == u[i].Get(g)
        {
          if g != f {
            assert r[i].Get(g) == ps[i].Get(g) == u[i].Get(g);
          }
        }
        PositionExtensionality(r[i], u[i]);
      }
    }
  }

  /** Updating an id that no position carries changes nothing. */
  lemma UpdateAbsentId(ps: seq<Position>, id: int, f: Field, v: string)
    requires forall i :: 0 <= i < |ps| ==> ps[i].id != id
    ensures UpdatePosition(ps, id, f, v) == ps
  {
  }

  /** The filter test `pos => pos.id !== id`. */
  function KeepOtherIds(id: int): Position -> bool {
    (p: Position) => p.id != id
  }

  /** `removePosition(id)`: drop the positions with that id, unless only one
      position is left. */
  function RemovePosition(ps: seq<Position>, id: int): (r: seq<Position>)
    ensures |ps| <= 1 ==> r == ps
    ensures |ps| > 1 ==> forall i :: 0 <= i < |r| ==> r[i].id != id
    ensures |ps| > 1 ==> forall i :: 0 <= i < |ps| && ps[i].id != id ==> ps[i] in r
    ensures |ps| > 1 ==> IsSubsequence(r, ps)
    ensures |ps| > 1 ==> forall i :: 0 <= i < |ps| && ps[i].id != id ==> multiset(r)[ps[i]] == multiset(ps)[ps[i]]
  {
    if |ps| > 1 then
      FilterIsSubsequence(ps, KeepOtherIds(id));
      FilterMultiplicity(ps, KeepOtherIds(id));
      Filter(ps, KeepOtherIds(id))
    else ps
  }

  /** With increasing ids, removing an id that sits at index `i` deletes
      exactly that one position. */
  lemma RemoveExactlyOne(ps: seq<Position>, id: int, i: nat)
    requires IdsIncreasing(ps)
    requires |ps| > 1
    requires i < |ps| && ps[i].id == id
    ensures RemovePosition(ps, id) == ps[..i] + ps[i + 1..]
  {
    FilterDropsOne(ps, KeepOtherIds(id), i);
  }

  /** Removing an id that no position carries changes nothing. */
  lemma RemoveAbsentId(ps: seq<Position>, id: int)
    requires forall i :: 0 <= i < |ps| ==> ps[i].id != id
    ensures RemovePosition(ps, id) == ps
  {
    if |ps| > 1 {
      FilterKeepsAll(ps, KeepOtherIds(id));
    }
  }

  /** On a valid list the largest id is the last one. */
  lemma MaxIdIsLast(ps: seq<Position>)
    requires ValidPositions(ps)
    ensures MaxId(ps) == ps[|ps| - 1].id
  {
    var m := MaxId(ps);
    if m != 0 {
      var k :| 0 <= k < |ps| && ps[k].id == m;
    }
  }

  /** Removing the last position and adding one gives the new position the
      id one above the new last id, which can be the removed id again: ids
      are reused, and only uniqueness within the list is kept. */
  lemma AddAfterRemovingLast(ps: seq<Position>)
    requires ValidPositions(ps) && |ps| > 1
    ensures
      var last := ps[|ps| - 1].id;
      var r := AddPosition(RemovePosition(ps, last));
      && |r| == |ps|
      && r[..|ps| - 1] == ps[..|ps| - 1]
      && r[|ps| - 1].id == ps[|ps| - 2].id + 1 <= last
  {
    var n := |ps| - 1;
    RemoveExactlyOne(ps, ps[n].id, n);
    var kept := RemovePosition(ps, ps[n].id);
    assert kept == ps[..n];
    assert ValidPositions(kept);
    MaxIdIsLast(kept);
  }

  /** Example: with ids 1 and 2, removing 2 and adding again hands out id 2. */
  lemma IdReuseExample()
    ensures AddPosition(RemovePosition([BlankPosition(1), BlankPosition(2)], 2))
      == [BlankPosition(1), BlankPosition(2)]
  {
    var ps := [BlankPosition(1), BlankPosition(2)];
    AddAfterRemovingLast(ps);
  }

  /** Every id that survives filtering the tail exceeds the head's id. */
  lemma FilteredTailIdsExceedHead(ps: seq<Position>, keep: Position -> bool)
    requires |ps| > 0 && IdsIncreasing(ps)
    ensures forall j :: 0 <= j < |Filter(ps[1..], keep)| ==> ps[0].id < Filter(ps[1..], keep)[j].id
  {
    var tail := ps[1..];
    var rest := Filter(tail, keep);
    forall j | 0 <= j < |rest|
      ensures ps[0].id < rest[j].id
    {
      FilteredElementIsInInput(tail, keep, j);
      var k :| 0 <= k < |tail| && tail[k] == rest[j];
      assert ps[k + 1] == rest[j];
    }
  }

  /** Filtering keeps ids increasing. */
  lemma {:induction false} FilterKeepsIdsIncreasing(ps: seq<Position>, keep: Position -> bool)
    requires IdsIncreasing(ps)
    ensures IdsIncreasing(Filter(ps, keep))
  {
    if |ps| > 0 {
      var tail := ps[1..];
      var rest := Filter(tail, keep);
      assert IdsIncreasing(tail);
      FilterKeepsIdsIncreasing(tail, keep);
      if keep(ps[0]) {
        FilteredTailIdsExceedHead(ps, keep);
        var r := [ps[0]] + rest;
        assert Filter(ps, keep) == r;
        forall i, j | 0 <= i < j < |r|
          ensures r[i].id < r[j].id
        {
          assert r[j] == rest[j - 1];
          if i > 0 {
            assert r[i] == rest[i - 1];
          }
        }
      } else {
        assert Filter(ps, keep) == rest;
      }
    }
  }

  /** Filtering keeps ids positive. */
  lemma FilterKeepsIdsPositive(ps: seq<Position>, keep: Position -> bool)
    requires forall i :: 0 <= i < |ps| ==> ps[i].id >= 1
    ensures forall j :: 0 <= j < |Filter(ps, keep)| ==> Filter(ps, keep)[j].id >= 1
  {
    forall j | 0 <= j < |Filter(ps, keep)|
      ensures Filter(ps, keep)[j].id >= 1
    {
      FilteredElementIsInInput(ps, keep, j);
    }
  }

  lemma InitialPositionsValid()
    ensures ValidPositions(InitialPositions())
  {
  }

  lemma AddPreservesValid(ps: seq<Position>)
    requires ValidPositions(ps)
    ensures ValidPositions(AddPosition(ps))
  {
    var r := AddPosition(ps);
    forall i, j | 0 <= i < j < |r|
      ensures r[i].id < r[j].id
    {
      if j < |ps| {
        assert r[i] == ps[i] && r[j] == ps[j];
      } else {
        assert r[i] == ps[i];
      }
    }
  }

  lemma UpdatePreservesValid(ps: seq<Position>, id: int, f: Field, v: string)
    requires ValidPositions(ps)
    ensures ValidPositions(UpdatePosition(ps, id, f, v))
  {
  }

  /** With increasing ids, at most one position goes, so a list of two or
      more never becomes empty. */
  lemma RemoveKeepsNonEmpty(ps: seq<Position>, id: int)
    requires IdsIncreasing(ps) && |ps| >= 1
    ensures |RemovePosition(ps, id)| >= 1
  {
    if |ps| > 1 {
      if i :| 0 <= i < |ps| && ps[i].id == id {
        RemoveExactlyOne(ps, id, i);
      } else {
        RemoveAbsentId(ps, id);
      }
    }
  }

  lemma RemovePreservesValid(ps: seq<Position>, id: int)
    requires ValidPositions(ps)
    ensures ValidPositions(RemovePosition(ps, id))
  {
    RemoveKeepsNonEmpty(ps, id);
    if |ps| > 1 {
      var keep := KeepOtherIds(id);
      FilterKeepsIdsIncreasing(ps, keep);
      FilterKeepsIdsPositive(ps, keep);
    }
  }

  /** One user action on the position list. */
  datatype Edit = Add | Update(id: int, field: Field, value: string) | Remove(id: int)

  function ApplyEdit(ps: seq<Position>, e: Edit): seq<Position> {
    match e
    case Add => AddPosition(ps)
    case Update(id, f, v) => UpdatePosition(ps, id, f, v)
    case Remove(id) => RemovePosition(ps, id)
  }

  function ApplyEdits(ps: seq<Position>, es: seq<Edit>): seq<Position>
    decreases |es|
  {
    if |es| == 0 then ps else ApplyEdits(ApplyEdit(ps, es[0]), es[1..])
  }

  lemma EditPreservesValid(ps: seq<Position>, e: Edit)
    requires ValidPositions(ps)
    ensures ValidPositions(ApplyEdit(ps, e))
  {
    match e
    case Add => AddPreservesValid(ps);
    case Update(id, f, v) => UpdatePreservesValid(ps, id, f, v);
    case Remove(id) => RemovePreservesValid(ps, id);
  }

  lemma {:induction false} EditsPreserveValid(ps: seq<Position>, es: seq<Edit>)
    requires ValidPositions(ps)
    ensures ValidPositions(ApplyEdits(ps, es))
    decreases |es|
  {
    if |es| > 0 {
      EditPreservesValid(ps, es[0]);
      EditsPreserveValid(ApplyEdit(ps, es[0]), es[1..]);
    }
  }

  /** Whatever the user does, the draft's list is non-empty with unique ids. */
  lemma ReachableListsValid(es: seq<Edit>)
    ensures ValidPositions(ApplyEdits(InitialPositions(), es))
  {
    InitialPositionsValid();
    EditsPreserveValid(InitialPositions(), es);
  }

  // ---------------------------------------------------------------------------
  // Saving

  datatype Draft = Draft(title: string, description: string, positions: seq<Position>)

  function InitialDraft(): Draft {
    Draft("", "", InitialPositions())
  }

  /** `p.title.trim() || p.name.trim()` */
  predicate HasContent(p: Position) {
    Trim(p.title) != "" || Trim(p.name) != ""
  }

  /** A position passes the save filter exactly when its title or its name
      holds a character other than whitespace. */
  lemma HasContentIffNotBlank(p: Position)
    ensures HasContent(p) <==> !(IsBlank(p.title) && IsBlank(p.name))
  {
  }

  /** The positions that are persisted: those with a non-blank title or name. */
  function KeptPositions(ps: seq<Position>): (r: seq<Position>)
    ensures forall i :: 0 <= i < |r| ==> HasContent(r[i])
    ensures forall i :: 0 <= i < |ps| && HasContent(ps[i]) ==> ps[i] in r
    ensures IsSubsequence(r, ps)
    ensures forall i :: 0 <= i < |ps| && HasContent(ps[i]) ==> multiset(r)[ps[i]] == multiset(ps)[ps[i]]
  {
    FilterIsSubsequence(ps, HasContent);
    FilterMultiplicity(ps, HasContent);
    Filter(ps, HasContent)
  }

  /** The row `saveChart` inserts, without its timestamp. */
  datatype Payload = Payload(owner: UserId, title: string, description: string, positions: seq<Position>)

  datatype SaveError =
    | TitleRequired  // the chart title is blank; no request is made
    | SaveFailed     // the request could not be built or the datastore refused it

  /** Validation and payload construction of `saveChart`. Reading `user.id`
      with no signed-in user throws inside the `try`, which reports the same
      failure as a datastore error. */
  function BuildPayload(d: Draft, user: Option<UserId>): (r: Result<Payload, SaveError>)
    ensures r == Err(TitleRequired) <==> Trim(d.title) == ""
    ensures r.Ok? <==> Trim(d.title) != "" && user.Some?
    ensures r.Ok? ==> r.value.owner == user.value
    ensures r.Ok? ==> r.value.title == Trim(d.title) && r.value.description == Trim(d.description)
    ensures r.Ok? ==> r.value.positions == KeptPositions(d.positions)
  {
    if Trim(d.title) == "" then Err(TitleRequired)
    else if user.None? then Err(SaveFailed)
    else Ok(Payload(user.value, Trim(d.title), Trim(d.description), KeptPositions(d.positions)))
  }

  /** What the insert-and-select resolves to: an error, or the returned rows' ids. */
  datatype InsertOutcome = InsertFailed | Inserted(ids: seq<ChartId>)

  /** `saveChart`, with the datastore's answer as a parameter. On success the
      page navigates to the first returned row; reading `data[0].id` of an
      empty answer throws and is reported as a failure. */
  function SaveChart(d: Draft, user: Option<UserId>, insert: InsertOutcome): (r: Result<ChartId, SaveError>)
    ensures r == Err(TitleRequired) <==> Trim(d.title) == ""
    ensures r.Ok? <==> BuildPayload(d, user).Ok? && insert.Inserted? && |insert.ids| > 0
    ensures r.Ok? ==> r.value == insert.ids[0]
  {
    match BuildPayload(d, user)
    case Err(e) => Err(e)
    case Ok(_) =>
      if insert.Inserted? && |insert.ids| > 0 then Ok(insert.ids[0]) else Err(SaveFailed)
  }

  /** A blank title is rejected before any payload exists. */
  lemma BlankTitleRejected(d: Draft, user: Option<UserId>, insert: InsertOutcome)
    requires IsBlank(d.title)
    ensures BuildPayload(d, user) == Err(TitleRequired)
    ensures SaveChart(d, user, insert) == Err(TitleRequired)
  {
  }

  /** The draft as first rendered has an empty title, so saving it is
      rejected whoever is signed in and whatever the datastore would answer. */
  lemma InitialDraftNeedsTitle(user: Option<UserId>, insert: InsertOutcome)
    ensures SaveChart(InitialDraft(), user, insert) == Err(TitleRequired)
  {
  }

  /** When saving builds a payload (a non-blank title and a signed-in user),
      the saved title is non-empty and has no surrounding whitespace. */
  lemma PayloadTitleTrimmed(d: Draft, user: Option<UserId>)
    requires Trim(d.title) != "" && user.Some?
    ensures var t := BuildPayload(d, user).value.title;
      |t| > 0 && !IsWhitespace(t[0]) && !IsWhitespace(t[|t| - 1])
  {
  }

  /** When saving builds a payload, a position whose title and name are both
      blank is not in it. */
  lemma BlankPositionDropped(d: Draft, user: Option<UserId>, p: Position)
    requires Trim(d.title) != "" && user.Some?
    requires IsBlank(p.title) && IsBlank(p.name)
    ensures p !in BuildPayload(d, user).value.positions
  {
  }

  /** Filtering the persisted positions again removes nothing. */
  lemma KeptPositionsIdempotent(ps: seq<Position>)
    ensures KeptPositions(KeptPositions(ps)) == KeptPositions(ps)
  {
    FilterIdempotent(ps, HasContent);
  }

  /** A list of positions that all have content is persisted unchanged. */
  lemma KeptPositionsAllContent(ps: seq<Position>)
    requires forall i :: 0 <= i < |ps| ==> HasContent(ps[i])
    ensures KeptPositions(ps) == ps
  {
    FilterKeepsAll(ps, HasContent);
  }

  /** The persisted positions of a reachable list still have unique, increasing ids. */
  lemma KeptPositionsIdsIncreasing(ps: seq<Position>)
    requires IdsIncreasing(ps)
    ensures IdsIncreasing(KeptPositions(ps))
  {
    FilterKeepsIdsIncreasing(ps, HasContent);
  }

  /** Saving the untouched initial list persists no positions. */
  lemma InitialListKeepsNothing()
    ensures KeptPositions(InitialPositions()) == []
  {
    assert !HasContent(BlankPosition(1));
  }

  /** Example: a chart titled "Org Chart" with the single position CEO / Ann
      is saved with exactly that position. */
  lemma OrgChartExample(owner: UserId)
    ensures
      var ceo := Position(1, "CEO", "Ann", "", "");
      BuildPayload(Draft("Org Chart", "", [ceo]), Some(owner))
        == Ok(Payload(owner, "Org Chart", "", [ceo]))
  {
    var ceo := Position(1, "CEO", "Ann", "", "");
    TrimUnpadded("CEO");
    TrimUnpadded("Org Chart");
    KeptPositionsAllContent([ceo]);
  }
}
