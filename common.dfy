/** Types shared by the services, the guard and the controllers. */
module Common {

  /** Store-assigned primary identifier (an ObjectId in the store). */
  type Id = nat

  datatype Option<T> = None | Some(value: T)

  /** The exceptions the services throw, by HTTP class. StoreFailure stands for an
      error raised by the document store itself (a rejected query, a unique-index
      violation), which surfaces as a generic internal failure. */
  datatype Error =
    | NotFound(message: string)
    | Forbidden(message: string)
    | Unauthorized(message: string)
    | BadRequest(message: string)
    | StoreFailure(message: string)

  datatype Result<T> = Ok(value: T) | Err(error: Error)

  /** The outcome of a service operation on a collection: what it returns or throws,
      and the collection afterwards. */
  datatype Step<V, T> = Step(result: Result<T>, store: map<Id, V>)

  /** The two values the user schema admits for `role`. */
  datatype Role = Admin | User

  /** The signed token payload, which the guard attaches to the request as `user`. */
  datatype Claims = Claims(id: Id, emailId: string, sub: Id, role: Role)

  /** Timestamps are milliseconds since the epoch. */
  datatype DateRange = DateRange(startDate: Option<int>, endDate: Option<int>)

  /** The `filters` argument of the paginated listings. */
  datatype ListFilters = ListFilters(search: Option<string>, createdAt: Option<DateRange>)

  /** `$gte: startDate, $lte: endDate`; a missing bound constrains nothing. */
  predicate InRange(t: int, r: DateRange)
  {
    (r.startDate.Some? ==> r.startDate.value <= t) && (r.endDate.Some? ==> t <= r.endDate.value)
  }

  /** `if (search)`: JavaScript truthiness, so an empty search string adds no filter. */
  predicate SearchGiven(search: Option<string>)
  {
    search.Some? && search.value != ""
  }

  /** The store's case-insensitive regular-expression match of a pattern against a field,
      passed in as a parameter because the store evaluates it. */
  type Matcher = (string, string) -> bool
}
