/**
 * The part of gin's request context that the two auth middlewares use: the
 * key/value store written by `c.Set` and read by `c.Get`, and whether the
 * handler chain was aborted with a JSON error or continued with `c.Next()`.
 */
module RequestContext {
  import opened Model

  const StatusUnauthorized: int := 401
  const StatusInternalServerError: int := 500

  /** The values the middlewares store: a parsed user ID, or a string claim. */
  datatype ContextValue = UuidValue(id: Uuid) | StringValue(text: string)

  /** Where the request stands after a middleware ran. */
  datatype Outcome = Pending | Continued | Aborted(status: int, message: string)

  class Context {
    var keys: map<string, ContextValue>
    var outcome: Outcome

    constructor (keys: map<string, ContextValue>)
      ensures this.keys == keys && outcome == Pending
    {
      this.keys := keys;
      outcome := Pending;
    }

    /** c.Set(key, value). */
    method Set(key: string, value: ContextValue)
      modifies this`keys
      ensures keys == old(keys)[key := value]
    {
      keys := keys[key := value];
    }

    /** c.AbortWithStatusJSON(status, {"error": message}). */
    method AbortWithStatusJSON(status: int, message: string)
      modifies this`outcome
      ensures outcome == Aborted(status, message)
    {
      outcome := Aborted(status, message);
    }

    /** c.Next(): the request proceeds to the handler. */
    method Next()
      modifies this`outcome
      ensures outcome == Continued
    {
      outcome := Continued;
    }
  }
}
