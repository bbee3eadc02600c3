/** The values that the spreadsheet loader hands to the processors: calendar
    dates, shipment timestamps and the cells of a table. */
module Cells {

  datatype Option<+T> = None | Some(value: T)

  /** A computation that either yields a value or fails with the error the
      Python code would raise. */
  datatype Result<+T, +E> = Ok(value: T) | Err(error: E)

  /** A calendar date (`datetime.date`). */
  datatype Date = Date(year: int, month: int, day: int)

  predicate ValidDate(d: Date) {
    1 <= d.month <= 12 && 1 <= d.day <= 31
  }

  /** A shipment time (`pandas.Timestamp`): its calendar date and the second
      of that day. `.dt.date` is the projection `date`. */
  datatype Timestamp = Timestamp(date: Date, second: int)

  /** Chronological order on dates. */
  predicate DateLe(a: Date, b: Date) {
    a.year < b.year
    || (a.year == b.year && (a.month < b.month || (a.month == b.month && a.day <= b.day)))
  }

  /** Chronological order on timestamps: first the date, then the second. */
  predicate TimeLe(a: Timestamp, b: Timestamp) {
    (a.date != b.date && DateLe(a.date, b.date)) || (a.date == b.date && a.second <= b.second)
  }

  lemma DateLeTotalOrder(a: Date, b: Date, c: Date)
    ensures DateLe(a, a)
    ensures DateLe(a, b) || DateLe(b, a)
    ensures DateLe(a, b) && DateLe(b, a) ==> a == b
    ensures DateLe(a, b) && DateLe(b, c) ==> DateLe(a, c)
  {
  }

  lemma TimeLeTotalOrder(a: Timestamp, b: Timestamp, c: Timestamp)
    ensures TimeLe(a, a)
    ensures TimeLe(a, b) || TimeLe(b, a)
    ensures TimeLe(a, b) && TimeLe(b, a) ==> a == b
    ensures TimeLe(a, b) && TimeLe(b, c) ==> TimeLe(a, c)
  {
    DateLeTotalOrder(a.date, b.date, c.date);
  }

  /** The content of one table cell. `Null` is pandas' missing value (NaN or
      NaT); a parsed shipment time is a `Time`, a number a `Num`. */
  datatype Cell = Null | Text(s: string) | Num(x: real) | Time(t: Timestamp)
}
