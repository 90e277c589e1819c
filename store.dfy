/** The backend's persistence and HTTP shapes. A JPA repository of the
    backend is a `Table`: the stored rows keyed by their generated id, with
    ids handed out in increasing order from 1 as an IDENTITY column does.
    A controller answers with a `Response`: a status code and an optional
    body, or an exception that leaves the controller. */
module Store {
  import opened Common

  const HttpOk: int := 200
  const HttpCreated: int := 201
  const HttpNoContent: int := 204
  const HttpNotFound: int := 404
  const HttpServerError: int := 500

  /** An entity as a request body carries it or a response returns it: the
      database id (`null` until it is saved) and the other columns. */
  datatype Entity<T> = Entity(id: Option<int>, fields: T)

  datatype Response<B> =
    | Response(code: int, body: Option<B>)
    | Thrown(message: string)

  /** What a get-by-id endpoint answers: 200 with the stored entity and its
      id, or 404 without a body. */
  function Lookup<T>(rows: map<int, T>, id: int): (r: Response<Entity<T>>)
    ensures r.Response?
    ensures r.code == HttpOk <==> id in rows
    ensures r.code == HttpOk || r.code == HttpNotFound
    ensures r.code == HttpOk ==> r.body == Some(Entity(Some(id), rows[id]))
    ensures r.code == HttpNotFound ==> r.body.None?
  {
    if id in rows then Response(HttpOk, Some(Entity(Some(id), rows[id]))) else Response(HttpNotFound, None)
  }

  /** A repository's `findBy<column>` query: the stored rows that `keep`
      accepts, each under its own id. */
  function RowsWhere<T>(rows: map<int, T>, keep: T -> bool): (r: map<int, T>)
    ensures forall k :: k in r <==> k in rows && keep(rows[k])
    ensures forall k :: k in r ==> r[k] == rows[k]
  {
    map k | k in rows && keep(rows[k]) :: rows[k]
  }

  /** A row just inserted is found under the id it was given, no other
      lookup changes, and deleting it makes its id answer 404 again. */
  lemma InsertedIsFound<T>(rows: map<int, T>, nextId: int, fields: T)
    requires nextId !in rows
    ensures Lookup(rows[nextId := fields], nextId) == Response(HttpOk, Some(Entity(Some(nextId), fields)))
    ensures Lookup(rows[nextId := fields] - {nextId}, nextId) == Response(HttpNotFound, None)
    ensures forall k :: k != nextId ==> Lookup(rows[nextId := fields], k) == Lookup(rows, k)
  {
  }

  class Table<T> {
    /** The stored rows, by id. */
    var rows: map<int, T>
    /** The id the next insert gets. */
    var nextId: int

    /** Every stored id was handed out before `nextId`. */
    predicate Valid()
      reads this
    {
      nextId >= 1 && forall k :: k in rows ==> 1 <= k < nextId
    }

    constructor()
      ensures Valid() && rows == map[] && nextId == 1
    {
      rows := map[];
      nextId := 1;
    }

    /** `findById`: the stored entity with its id, if any. */
    function FindById(id: int): (found: Option<Entity<T>>)
      reads this
      ensures found.Some? <==> id in rows
      ensures found.Some? ==> found.value.id == Some(id) && found.value.fields == rows[id]
    {
      if id in rows then Some(Entity(Some(id), rows[id])) else None
    }

    /** `save` of a new entity: it is stored under a fresh id, which no
        stored or deleted row ever had, and returned with it. */
    method Insert(fields: T) returns (saved: Entity<T>)
      requires Valid()
      modifies this
      ensures Valid()
      ensures saved == Entity(Some(old(nextId)), fields)
      ensures old(nextId) !in old(rows) && rows == old(rows)[old(nextId) := fields]
      ensures nextId == old(nextId) + 1
    {
      saved := Entity(Some(nextId), fields);
      rows := rows[nextId := fields];
      nextId := nextId + 1;
    }

    /** `save` of an entity whose id is stored: its columns are replaced. */
    method Overwrite(id: int, fields: T) returns (saved: Entity<T>)
      requires Valid() && id in rows
      modifies this
      ensures Valid()
      ensures saved == Entity(Some(id), fields)
      ensures rows == old(rows)[id := fields] && nextId == old(nextId)
    {
      rows := rows[id := fields];
      saved := Entity(Some(id), fields);
    }

    /** `deleteById`: the row goes, every other row stays. */
    method DeleteById(id: int)
      requires Valid()
      modifies this
      ensures Valid()
      ensures rows == old(rows) - {id} && nextId == old(nextId)
    {
      rows := rows - {id};
    }
  }
}
