/** What the services share: the sentinel errors they return, the way a
    storage error is passed through, and the name filter of the list calls. */
module ServiceCommon {
  import opened Wrappers
  import opened Bson
  import opened DocumentStore

  /** The package-level `errors.New` values of the services, by their Go name. */
  datatype Sentinel =
    | ErrPlatformNotFound | ErrInvalidID | ErrNoUpdateData
    | ErrDeveloperNotFound | ErrInvalidDeveloperID | ErrNoDeveloperUpdateData
    | ErrPublisherNotFound | ErrInvalidPublisherID | ErrNoPublisherUpdateData
    | ErrGenreNotFound | ErrInvalidGenreID | ErrNoGenreUpdateData
    | ErrGameNotFound | ErrInvalidGameID

  /** A service error: one of the sentinels, or a repository error returned as is. */
  datatype Error = Sentinel(s: Sentinel) | Storage(e: StoreError)

  /** `bson.M{}` for an empty name, else a case-insensitive `$regex` on the
      field with the name as the pattern (not escaped). A stored string is
      matched directly; a stored array matches through any string element. */
  function NameFilter(field: string, name: string): (f: Filter)
    ensures forall d: Doc, m: Matcher {:trigger Matches(d, f, m)} :: Matches(d, f, m) <==>
      (name == "" ||
       (field in d && d[field].VStr? && m(name, "i", d[field].s)) ||
       (field in d && d[field].VArr? &&
        exists i :: 0 <= i < |d[field].items| && d[field].items[i].VStr? && m(name, "i", d[field].items[i].s)))
  {
    if name == "" then All else Regex(field, name, "i")
  }
}
