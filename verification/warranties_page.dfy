/**
 * The warranties page: the "expiring" flag beside an end date, the
 * Active/Expired badge and the document cell. Instants are milliseconds
 * since the epoch; a date-only `end_date` parses as midnight UTC of that
 * day, and days are numbered from the epoch.
 */
module WarrantiesPage {
  import opened Wrappers
  import opened JsValues
  import opened Models
  import Views
  import Serializers

  /** `1000 * 60 * 60 * 24` */
  const DayMs := 86400000

  /** `Math.ceil(a / b)` for a positive divisor, built from floor division. */
  function CeilDiv(a: int, b: int): (q: int)
    requires b > 0
    ensures (q - 1) * b < a <= q * b
  {
    -((-a) / b)
  }

  /** `new Date(end_date)`: midnight UTC of the given day. */
  function Midnight(day: int): int { day * DayMs }

  /** `daysUntilExpiry`: whole days from now to the end instant, rounded up. */
  function DaysUntil(end: int, now: int): int {
    CeilDiv(end - now, DayMs)
  }

  /** `isWarrantyExpiring`: between 0 and 30 days left, both included. */
  predicate IsExpiring(end: int, now: int) {
    0 <= DaysUntil(end, now) <= 30
  }

  /** The badge reads Active while the end instant lies in the future, Expired from then on. */
  predicate ShowsActive(end: int, now: int) {
    end > now
  }

  /** The flag covers the instants from just under a day ago up to thirty days ahead. */
  lemma ExpiringWindow(end: int, now: int)
    ensures IsExpiring(end, now) <==> now - DayMs < end <= now + 30 * DayMs
  {
    var q := DaysUntil(end, now);
    assert (q - 1) * DayMs < end - now <= q * DayMs;
  }

  /** An end that passed less than a day ago is still flagged as expiring, under an Expired badge. */
  lemma JustExpiredStillFlagged(end: int, now: int)
    requires now - DayMs < end <= now
    ensures IsExpiring(end, now) && !ShowsActive(end, now)
  {
    ExpiringWindow(end, now);
  }

  /** With at least one day left the badge reads Active. */
  lemma DaysLeftMeansActive(end: int, now: int)
    requires DaysUntil(end, now) >= 1
    ensures ShowsActive(end, now)
  {
    var q := DaysUntil(end, now);
    assert (q - 1) * DayMs < end - now;
  }

  /** For a date-only end the day count is the difference of day numbers, today being the UTC day of `now`. */
  lemma DaysUntilMidnight(day: int, now: int)
    ensures DaysUntil(Midnight(day), now) == day - now / DayMs
  {
    var t, f := now / DayMs, now % DayMs;
    assert now == t * DayMs + f && 0 <= f < DayMs;
    var q := DaysUntil(Midnight(day), now);
    assert (q - 1) * DayMs < (day - t) * DayMs - f <= q * DayMs;
    assert q - 1 < day - t;
    assert day - t - 1 < q;
  }

  /** The page's flag agrees with the server's `expiring_soon` window of 30 days. */
  lemma FlagMatchesServer(w: Warranty, now: int)
    ensures IsExpiring(Midnight(w.endDate), now) <==> Views.InWindow(w, now / DayMs, Views.DefaultDays)
  {
    DaysUntilMidnight(w.endDate, now);
  }

  /** A warranty ending today is expiring for the server and the page, yet its badge already reads Expired. */
  lemma EndsTodayShownExpired(w: Warranty, now: int)
    requires w.endDate == now / DayMs
    ensures Views.InWindow(w, now / DayMs, Views.DefaultDays)
    ensures IsExpiring(Midnight(w.endDate), now) && !ShowsActive(Midnight(w.endDate), now)
  {
    FlagMatchesServer(w, now);
    assert now / DayMs * DayMs <= now;
  }

  /** The document cell shows the file when the row's read field is truthy, else "No document". */
  predicate ShowsDocument(row: Record) {
    Truthy(Get(row, "warranty_document_data_read"))
  }

  /** A serialized warranty shows a document exactly when a non-empty file is stored. */
  lemma DocumentShownIffStored(obj: Record)
    ensures var row := map["warranty_document_data_read" := Serializers.ReadField(obj, "warranty_document_data")];
      var stored := Serializers.StoredBytes(obj, "warranty_document_data");
      ShowsDocument(row) <==> (stored.Some? && stored.value != [])
  {
  }
}
