/**
 * `GET` and `POST` on `/api/landing-pages`, over the `landing_pages` table
 * seen as a store keyed by slug (the slug column is unique). The identity
 * provider is a boolean, the database's availability, generated id and clock
 * are parameters.
 */
module LandingPagesRoute {
  import opened Wrappers
  import opened Supabase

  /** The fields of a create request body that the handler reads. */
  datatype CreateBody = CreateBody(slug: string, title: string, data: Json, checkoutUrl: Option<string>)

  datatype ResponseBody =
    | Failure(error: string)
    | One(page: LandingPage)
    | Many(pages: seq<LandingPage>)

  datatype Response = Response(status: int, body: ResponseBody)

  const Unauthorized := Response(401, Failure("Unauthorized"))
  const FetchFailed := Response(500, Failure("Failed to fetch landing pages"))
  const MissingFields := Response(400, Failure("Missing required fields: slug, title, data"))
  const SlugConflict := Response(409, Failure("Landing page with this slug already exists"))
  const CreateFailed := Response(500, Failure("Failed to create landing page"))

  /** `!slug || !title || !data`. */
  predicate HasMissingField(b: CreateBody) {
    b.slug == [] || b.title == [] || !Truthy(b.data)
  }

  /**
   * The status `POST` answers with. `body` is `None` when the request body is
   * not valid JSON; `dbAvailable` is false when the database reports any error
   * other than a unique violation; `existing` are the slugs already stored.
   * Each status has exactly one cause: 401 for a missing session, 400 for a
   * falsy slug, title or data, 409 for a slug already taken, 201 for a new
   * slug, and 500 for a body that is not JSON or a failing database.
   */
  function PostStatus(authenticated: bool, body: Option<CreateBody>, dbAvailable: bool, existing: set<string>): (st: int)
    ensures st == 401 <==> !authenticated
    ensures st == 400 <==> authenticated && body.Some? && HasMissingField(body.value)
    ensures st == 409 <==> authenticated && body.Some? && !HasMissingField(body.value)
                           && dbAvailable && body.value.slug in existing
    ensures st == 201 <==> authenticated && body.Some? && !HasMissingField(body.value)
                           && dbAvailable && body.value.slug !in existing
    ensures st == 500 <==> authenticated && (body.None? || (!HasMissingField(body.value) && !dbAvailable))
  {
    if !authenticated then 401
    else if body.None? then 500
    else if HasMissingField(body.value) then 400
    else if !dbAvailable then 500
    else if body.value.slug in existing then 409
    else 201
  }

  /** The row the database stores for a create request. */
  function NewRow(b: CreateBody, id: string, now: Timestamp): Row {
    Row(id, b.slug, b.title, b.data, b.checkoutUrl, now, now)
  }

  // ---------------------------------------------------------------------------
  // The listing order
  // ---------------------------------------------------------------------------

  /** Most recently updated first. */
  predicate SortedByUpdatedDesc(ps: seq<LandingPage>) {
    forall i, j :: 0 <= i < j < |ps| ==> ps[i].updatedAt >= ps[j].updatedAt
  }

  predicate DistinctSlugs(ps: seq<LandingPage>) {
    forall i, j :: 0 <= i < j < |ps| ==> ps[i].slug != ps[j].slug
  }

  /** Where `p` goes in a list sorted by `updatedAt`, descending. */
  function InsertPosition(ps: seq<LandingPage>, p: LandingPage): (k: nat)
    ensures k <= |ps|
    ensures forall i :: 0 <= i < k ==> ps[i].updatedAt > p.updatedAt
    ensures k < |ps| ==> ps[k].updatedAt <= p.updatedAt
  {
    if ps == [] || ps[0].updatedAt <= p.updatedAt then 0 else 1 + InsertPosition(ps[1..], p)
  }

  /** `p` placed into `ps` at `InsertPosition`. */
  function Insert(ps: seq<LandingPage>, p: LandingPage): seq<LandingPage> {
    var k := InsertPosition(ps, p);
    ps[..k] + [p] + ps[k..]
  }

  /** Where each element of the old list lands after an insertion. */
  lemma InsertIndices(ps: seq<LandingPage>, p: LandingPage)
    ensures var k := InsertPosition(ps, p);
      var r := Insert(ps, p);
      && |r| == |ps| + 1
      && r[k] == p
      && (forall i :: 0 <= i < k ==> r[i] == ps[i])
      && (forall i :: k < i < |r| ==> r[i] == ps[i - 1])
  {
  }

  /** Inserting at `InsertPosition` keeps the list ordered. */
  lemma InsertSorted(ps: seq<LandingPage>, p: LandingPage)
    requires SortedByUpdatedDesc(ps)
    ensures SortedByUpdatedDesc(Insert(ps, p))
  {
    var k := InsertPosition(ps, p);
    var r := Insert(ps, p);
    InsertIndices(ps, p);
    forall i, j | 0 <= i < j < |r|
      ensures r[i].updatedAt >= r[j].updatedAt
    {
      if j < k {
        assert r[i] == ps[i] && r[j] == ps[j];
      } else if j == k {
        assert r[i] == ps[i];
      } else if i < k {
        assert r[i] == ps[i] && r[j] == ps[j - 1];
      } else if i == k {
        assert r[j] == ps[j - 1] && ps[k].updatedAt >= ps[j - 1].updatedAt;
      } else {
        assert r[i] == ps[i - 1] && r[j] == ps[j - 1];
      }
    }
  }

  /** The inserted list holds the old elements and `p`, and nothing else. */
  lemma InsertMembers(ps: seq<LandingPage>, p: LandingPage)
    ensures forall e :: e in Insert(ps, p) <==> e in ps || e == p
  {
    var k := InsertPosition(ps, p);
    assert ps == ps[..k] + ps[k..];
  }

  /** A page with a new slug keeps the slugs distinct. */
  lemma InsertDistinct(ps: seq<LandingPage>, p: LandingPage)
    requires DistinctSlugs(ps)
    requires forall i :: 0 <= i < |ps| ==> ps[i].slug != p.slug
    ensures DistinctSlugs(Insert(ps, p))
  {
    var k := InsertPosition(ps, p);
    var r := Insert(ps, p);
    InsertIndices(ps, p);
    forall i, j | 0 <= i < j < |r|
      ensures r[i].slug != r[j].slug
    {
      if j < k {
        assert r[i] == ps[i] && r[j] == ps[j];
      } else if j == k {
        assert r[i] == ps[i];
      } else if i < k {
        assert r[i] == ps[i] && r[j] == ps[j - 1];
      } else if i == k {
        assert r[j] == ps[j - 1];
      } else {
        assert r[i] == ps[i - 1] && r[j] == ps[j - 1];
      }
    }
  }

  /**
   * `ps` lists the rows filed under the keys in `done`, each once,
   * transformed, most recently updated first.
   */
  predicate ListsRows(ps: seq<LandingPage>, rows: map<string, Row>, done: set<string>) {
    && SortedByUpdatedDesc(ps)
    && DistinctSlugs(ps)
    && (forall i :: 0 <= i < |ps| ==>
          ps[i].slug in done && ps[i].slug in rows && ps[i] == TransformLandingPage(rows[ps[i].slug]))
    && (forall k :: k in done && k in rows ==> TransformLandingPage(rows[k]) in ps)
  }

  /** Inserting the row under one more key lists that key too. */
  lemma ListsRowsInsert(ps: seq<LandingPage>, rows: map<string, Row>, done: set<string>, x: string)
    requires forall k :: k in rows ==> rows[k].slug == k
    requires ListsRows(ps, rows, done) && x in rows && x !in done
    ensures ListsRows(Insert(ps, TransformLandingPage(rows[x])), rows, done + {x})
  {
    var p := TransformLandingPage(rows[x]);
    var r := Insert(ps, p);
    InsertSorted(ps, p);
    InsertMembers(ps, p);
    InsertDistinct(ps, p);
    forall i | 0 <= i < |r|
      ensures r[i].slug in done + {x} && r[i].slug in rows && r[i] == TransformLandingPage(rows[r[i].slug])
    {
      assert r[i] in ps || r[i] == p;
    }
  }

  // ---------------------------------------------------------------------------
  // The store
  // ---------------------------------------------------------------------------

  class PageStore {
    /** The table, keyed by the unique slug column. */
    var rows: map<string, Row>

    /** Every row is filed under its own slug. */
    ghost predicate Valid()
      reads this
    {
      forall k :: k in rows ==> rows[k].slug == k
    }

    constructor ()
      ensures Valid() && rows == map[]
    {
      rows := map[];
    }

    /**
     * `GET /api/landing-pages`: every stored page, transformed, most recently
     * updated first.
     */
    method Get(authenticated: bool, dbAvailable: bool) returns (resp: Response)
      requires Valid()
      ensures !authenticated ==> resp == Unauthorized
      ensures authenticated && !dbAvailable ==> resp == FetchFailed
      ensures authenticated && dbAvailable ==> resp.status == 200 && resp.body.Many?
      ensures resp.body.Many? ==>
        var ps := resp.body.pages;
        && SortedByUpdatedDesc(ps)
        && DistinctSlugs(ps)
        && (forall i :: 0 <= i < |ps| ==> ps[i].slug in rows && ps[i] == TransformLandingPage(rows[ps[i].slug]))
        && (forall k :: k in rows ==> TransformLandingPage(rows[k]) in ps)
    {
      if !authenticated {
        return Unauthorized;
      }
      if !dbAvailable {
        return FetchFailed;
      }
      var acc: seq<LandingPage> := [];
      var done: set<string> := {};
      while rows.Keys - done != {}
        invariant done <= rows.Keys
        invariant ListsRows(acc, rows, done)
        decreases rows.Keys - done
      {
        var x :| x in rows.Keys - done;
        ListsRowsInsert(acc, rows, done, x);
        acc := Insert(acc, TransformLandingPage(rows[x]));
        done := done + {x};
      }
      resp := Response(200, Many(acc));
    }

    /**
     * `POST /api/landing-pages`. A created page is stored under its slug and
     * returned transformed with 201; every other outcome leaves the table as
     * it was.
     */
    method Post(authenticated: bool, body: Option<CreateBody>, dbAvailable: bool, newId: string, now: Timestamp)
      returns (resp: Response)
      requires Valid()
      modifies this
      ensures Valid()
      ensures resp.status == PostStatus(authenticated, body, dbAvailable, old(rows).Keys)
      ensures resp.status == 401 ==> resp == Unauthorized
      ensures resp.status == 400 ==> resp == MissingFields
      ensures resp.status == 409 ==> resp == SlugConflict
      ensures resp.status == 500 ==> resp == CreateFailed
      ensures resp.status == 201 ==>
        var row := NewRow(body.value, newId, now);
        && row.slug !in old(rows)
        && rows == old(rows)[row.slug := row]
        && |rows| == |old(rows)| + 1
        && resp.body == One(TransformLandingPage(row))
      ensures resp.status != 201 ==> rows == old(rows)
    {
      if !authenticated {
        return Unauthorized;
      }
      if body.None? {
        return CreateFailed;
      }
      var b := body.value;
      if HasMissingField(b) {
        return MissingFields;
      }
      if !dbAvailable {
        return CreateFailed;
      }
      if b.slug in rows {
        return SlugConflict;
      }
      var row := NewRow(b, newId, now);
      rows := rows[b.slug := row];
      resp := Response(201, One(TransformLandingPage(row)));
    }
  }
}
