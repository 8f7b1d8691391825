/**
 * The append-only, insertion-ordered result list that every detector fills
 * (FFlist with ffListAdd in the C sources), one instance per kind of record.
 */
module ResultStore {
  class ResultList<T> {
    var items: seq<T>

    constructor ()
      ensures items == []
    {
      items := [];
    }

    /** Appends one record at the end; earlier records keep their values and order. */
    method Add(x: T)
      modifies this
      ensures items == old(items) + [x]
    {
      items := items + [x];
    }
  }
}
