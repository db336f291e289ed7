/**
 * The `landing_pages` table row and its API shape: `transformLandingPage`
 * renames the snake_case columns to camelCase fields.
 */
module Supabase {
  import opened Wrappers

  /** A JSON value, as the `data` column (JSONB) holds the page document. */
  datatype Json =
    | JNull
    | JBool(b: bool)
    | JNum(n: int)
    | JStr(s: string)
    | JArr(items: seq<Json>)
    | JObj(members: seq<(string, Json)>)

  /** JavaScript truthiness of a parsed JSON value. */
  predicate Truthy(v: Json) {
    match v
    case JNull => false
    case JBool(b) => b
    case JNum(n) => n != 0
    case JStr(s) => s != []
    case JArr(_) => true
    case JObj(_) => true
  }

  /** A timestamp column, as a point on a line (microseconds since an epoch). */
  type Timestamp = int

  /** A row of `landing_pages`, with the database's column names. */
  datatype Row = Row(
    id: string,
    slug: string,
    title: string,
    data: Json,
    checkout_url: Option<string>,
    created_at: Timestamp,
    updated_at: Timestamp)

  /** The API record, with camelCase field names. */
  datatype LandingPage = LandingPage(
    id: string,
    slug: string,
    title: string,
    data: Json,
    checkoutUrl: Option<string>,
    createdAt: Timestamp,
    updatedAt: Timestamp)

  /** `transformLandingPage(dbRow)`: nothing is lost, renaming back gives the row. */
  function TransformLandingPage(row: Row): (page: LandingPage)
    ensures ToRow(page) == row
  {
    LandingPage(row.id, row.slug, row.title, row.data, row.checkout_url, row.created_at, row.updated_at)
  }

  /** The reverse renaming, from an API record back to a row. */
  function ToRow(page: LandingPage): Row {
    Row(page.id, page.slug, page.title, page.data, page.checkoutUrl, page.createdAt, page.updatedAt)
  }

  /**
   * The transform copies id, slug, title and data, carries `checkout_url`
   * over as `checkoutUrl` (a null included), the two timestamps as
   * `createdAt` / `updatedAt`.
   */
  lemma TransformRoundTrip(row: Row)
    ensures var p := TransformLandingPage(row);
      p.id == row.id && p.slug == row.slug && p.title == row.title && p.data == row.data
      && p.checkoutUrl == row.checkout_url
      && p.createdAt == row.created_at && p.updatedAt == row.updated_at
  {
  }

  /** Every API record is the transform of exactly one row. */
  lemma TransformBijective(page: LandingPage, r1: Row, r2: Row)
    ensures TransformLandingPage(ToRow(page)) == page
    ensures TransformLandingPage(r1) == TransformLandingPage(r2) ==> r1 == r2
  {
  }
}
