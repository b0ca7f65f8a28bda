/**
 The records the pages exchange with the datastore, and the outcome types
 that stand in for the datastore's answers.
 */
module Records {

  datatype Option<+T> = None | Some(value: T)

  datatype Result<+T, +E> = Ok(value: T) | Err(error: E)

  /** What a remote read resolves to: an error, or the rows it returned. */
  datatype FetchOutcome<+T> = FetchFailed | Fetched(data: T)

  /** Identity of the signed-in user, as issued by the auth service. */
  type UserId = string

  /** Server-assigned chart key; the pages only compare it for equality. */
  type ChartId = int

  /** The four free-text fields of a position that the builder's inputs edit. */
  datatype Field = Title | Name | Responsibilities | Kpis

  /** A role in an accountability chart. `id` is the builder's list-editing key. */
  datatype Position = Position(id: int, title: string, name: string, responsibilities: string, kpis: string)
  {
    function Get(f: Field): string {
      match f
      case Title => title
      case Name => name
      case Responsibilities => responsibilities
      case Kpis => kpis
    }

    /** `{ ...pos, [field]: value }` */
    function With(f: Field, v: string): (p: Position)
      ensures p.id == id
      ensures p.Get(f) == v
      ensures forall g :: g != f ==> p.Get(g) == Get(g)
    {
      match f
      case Title => this.(title := v)
      case Name => this.(name := v)
      case Responsibilities => this.(responsibilities := v)
      case Kpis => this.(kpis := v)
    }
  }

  /** A position is nothing more than its id and its four fields. */
  lemma PositionExtensionality(p: Position, q: Position)
    requires p.id == q.id
    requires forall f :: p.Get(f) == q.Get(f)
    ensures p == q
  {
    assert p.Get(Title) == q.Get(Title);
    assert p.Get(Name) == q.Get(Name);
    assert p.Get(Responsibilities) == q.Get(Responsibilities);
    assert p.Get(Kpis) == q.Get(Kpis);
  }

  /** A position with the given id and every text field empty. */
  function BlankPosition(id: int): (p: Position)
    ensures p.id == id
    ensures forall f :: p.Get(f) == ""
  {
    Position(id, "", "", "", "")
  }

  /** A row of the `charts` table as the pages read it. */
  datatype Chart = Chart(id: ChartId, title: string, description: string, positions: seq<Position>)
}
