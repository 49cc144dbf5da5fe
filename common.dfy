/** Value wrappers and small string helpers shared by every module of the model. */
module Common {

  datatype Option<+T> = None | Some(value: T)

  /** The outcome of an operation that may raise: `Err` carries what was raised. */
  datatype Result<+T, +E> = Ok(value: T) | Err(error: E)

  /** A point in time, in seconds; the clock itself is a parameter of every operation that reads it. */
  type Timestamp = int

  /** Python's `s.startswith(prefix)`. */
  predicate StartsWith(s: string, prefix: string)
  {
    |prefix| <= |s| && s[..|prefix|] == prefix
  }

  /** Python's slice `s[n:]` for a non-negative `n`: past the end it is empty, never an error. */
  function DropPrefix(s: string, n: nat): (r: string)
    ensures n <= |s| ==> r == s[n..]
    ensures |s| <= n ==> r == []
    ensures |r| == if n <= |s| then |s| - n else 0
  {
    if n <= |s| then s[n..] else []
  }

  /**
   * The two timestamp fields that a pydantic response schema declares as
   * required (`created_at`, `updated_at`) and the caller did not supply.
   */
  function MissingTimestamps(createdAt: Option<Timestamp>, updatedAt: Option<Timestamp>): (missing: set<string>)
    ensures missing == {} <==> createdAt.Some? && updatedAt.Some?
    ensures "created_at" in missing <==> createdAt.None?
    ensures "updated_at" in missing <==> updatedAt.None?
    ensures createdAt.None? && updatedAt.None? ==> missing == {"created_at", "updated_at"}
  {
    (if createdAt.None? then {"created_at"} else {}) + (if updatedAt.None? then {"updated_at"} else {})
  }
}
