/** Shared vocabulary of the invoicing core: optional values, results, instants. */
module Common {

  datatype Option<+T> = None | Some(value: T)

  datatype Result<+T, +E> = Ok(value: T) | Err(error: E)

  /** An instant in UTC, as whole seconds since the epoch. `datetime.now`/`utcnow`
      are never read by the model: every operation that needs the clock takes `now`. */
  type Instant = int

  const SecondsPerHour: int := 3600
  const SecondsPerDay: int := 86400

  /** Python truthiness of an optional string: present and non-empty. */
  predicate Truthy(s: Option<string>)
  {
    s.Some? && s.value != ""
  }

  /** `str(x)` of an optional string: `None` prints as "None". */
  function Str(s: Option<string>): string
  {
    match s
    case Some(v) => v
    case None => "None"
  }

  /** `get_by_id` of every collection: an empty id, or one that names no record (a
      malformed id included), gives `None`. */
  function GetById<T>(records: map<string, T>, id: string): (r: Option<T>)
    ensures r.Some? <==> id != "" && id in records
    ensures r.Some? ==> r.value == records[id]
  {
    if id == "" then None
    else if id in records then Some(records[id])
    else None
  }
}
