/**
 * The keyset cursor shared by ingestion (trace-batch-source.ts) and the pending sweep
 * (pending-price-cursor.ts): an instant, ties broken by trace id. Many rows may share an instant,
 * so the instant alone would skip or repeat rows at a page boundary; with the id it is a strict
 * total order, and a page read strictly past the last key of the page before it goes on exactly
 * where that page ended.
 */
module Keyset {
  import opened Wrappers
  import opened StatementModel

  datatype Cursor = Cursor(at: int, traceId: string)

  predicate Before(a: Cursor, b: Cursor) {
    a.at < b.at || (a.at == b.at && TextLess(a.traceId, b.traceId))
  }

  predicate AtOrBefore(a: Cursor, b: Cursor) {
    a == b || Before(a, b)
  }

  /** Strictly past a stored cursor; everything is past an absent one. */
  predicate Past(after: Option<Cursor>, key: Cursor) {
    after.None? || Before(after.value, key)
  }

  /** A stored cursor has not moved backwards. */
  predicate NotBehind(now: Option<Cursor>, earlier: Option<Cursor>) {
    earlier.Some? ==> now.Some? && AtOrBefore(earlier.value, now.value)
  }

  lemma BeforeFacts(a: Cursor, b: Cursor, c: Cursor)
    ensures !Before(a, a) && (a == b || Before(a, b) || Before(b, a)) && !(Before(a, b) && Before(b, a))
    ensures Before(a, b) && Before(b, c) ==> Before(a, c)
  {
    TextLessIrreflexive(a.traceId);
    TextLessTotal(a.traceId, b.traceId);
    if TextLess(a.traceId, b.traceId) && TextLess(b.traceId, c.traceId) {
      TextLessTransitive(a.traceId, b.traceId, c.traceId);
    }
    if TextLess(a.traceId, b.traceId) && TextLess(b.traceId, a.traceId) {
      TextLessTransitive(a.traceId, b.traceId, a.traceId);
    }
  }
}
