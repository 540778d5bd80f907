/** The `url_map` table as the allocators see it: a map from short code to
    original URL, whose `short` column carries a uniqueness constraint that
    the store enforces when a transaction commits. */
module Store {
  import opened Wrappers

  /** A row of `url_map`: the short code and the original URL (the
      store-assigned `id` and `timestamp` are not modelled). */
  datatype Mapping = Mapping(short: string, original: string)

  /** The outcome of `db.session.commit()` for one added row. */
  datatype Commit = Committed | UniquenessViolation

  /** The table after an allocation: the new row when it succeeded, the same
      table when it failed. */
  function AfterCreate<E>(rows: map<string, string>, r: Result<Mapping, E>): (after: map<string, string>)
    ensures r.Ok? ==> after.Keys == rows.Keys + {r.value.short} && after[r.value.short] == r.value.original
    ensures forall k :: k in rows && (r.Ok? ==> k != r.value.short) ==> k in after && after[k] == rows[k]
    ensures r.Err? ==> after == rows
  {
    if r.Ok? then rows[r.value.short := r.value.original] else rows
  }

  class Table {
    /** short code |-> original URL */
    var rows: map<string, string>

    constructor ()
      ensures rows == map[]
    {
      rows := map[];
    }

    /** `session.add(row)` followed by `session.commit()`, with `rollback()`
        when the commit fails. The commit fails when the code is already
        stored or when `contended` says that another writer committed the
        same code first; a failed commit leaves the table as it was. */
    method Insert(short: string, original: string, contended: bool) returns (c: Commit)
      modifies this
      ensures c == Committed <==> short !in old(rows) && !contended
      ensures rows == if c == Committed then old(rows)[short := original] else old(rows)
    {
      if short in rows || contended {
        c := UniquenessViolation;
      } else {
        rows := rows[short := original];
        c := Committed;
      }
    }
  }
}
