/** The expiry test of `authenticateToken` as the query writes it:
    `expires_at > datetime("now")`. The stored value is the text of
    `toISOString()`, `YYYY-MM-DDTHH:MM:SS.mmmZ`; `datetime('now')` is the
    text `YYYY-MM-DD HH:MM:SS`. Neither is a number, so SQLite compares the
    two as text, and at the eleventh character a `'T'` always sorts above
    the `' '`: only the calendar dates decide. */
module SessionExpiry {
  import opened JsText

  const MsPerDay: nat := 86_400_000
  const SecondsPerDay: nat := 86_400

  /** How a UTC moment is written: `date(d)` is the `YYYY-MM-DD` of day
      number `d` since the epoch, `time(s)` the `HH:MM:SS` of second `s` of a
      day. */
  datatype Calendar = Calendar(date: nat -> string, time: nat -> string)

  /** The days the form `YYYY-MM-DD` can write from the epoch on:
      1970-01-01 through 9999-12-31. */
  const Days: nat := 2_932_897

  /** On the days of `Days`, dates are ten characters wide and later days
      sort later: what the zero-padded `YYYY-MM-DD` form guarantees. */
  ghost predicate WellFormed(c: Calendar) {
    && (forall d: nat :: d < Days ==> |c.date(d)| == 10)
    && (forall d: nat, e: nat :: d < e < Days ==> LexLess(c.date(d), c.date(e)))
  }

  /** The last `w` decimal digits of `n`, zero-padded. */
  function Padded(n: nat, w: nat): (r: string)
    ensures |r| == w
  {
    if w == 0 then [] else Padded(n / 10, w - 1) + [DigitChar(n % 10)]
  }

  /** Zero-padded numerals of one width sort as the numbers they write. */
  lemma {:induction false} PaddedOrdered(a: nat, b: nat, w: nat)
    requires a < b < Pow10(w)
    ensures LexLess(Padded(a, w), Padded(b, w))
    decreases w
  {
    assert w > 0;
    var da, db := DigitChar(a % 10), DigitChar(b % 10);
    if a / 10 < b / 10 {
      PaddedOrdered(a / 10, b / 10, w - 1);
      LexLessEqualWidthPrefix(Padded(a / 10, w - 1), Padded(b / 10, w - 1), [da], [db]);
    } else {
      assert a / 10 == b / 10 && a % 10 < b % 10;
      LexLessCommonPrefix(Padded(a / 10, w - 1), [da], [db]);
      assert LexLess([da], [db]);
    }
  }

  /** A calendar meeting `WellFormed` exists: one that writes day `d` as its
      ten-digit zero-padded number, which sorts like the real dates do. */
  lemma CalendarExists()
    ensures exists c :: WellFormed(c)
  {
    var c := Calendar((d: nat) => Padded(d, 10), (s: nat) => "00:00:00");
    assert Pow10(10) == 10_000_000_000;
    forall d: nat, e: nat | d < e < Days
      ensures LexLess(c.date(d), c.date(e))
    {
      PaddedOrdered(d, e, 10);
    }
    assert WellFormed(c);
  }

  function ThreeDigits(n: nat): (r: string)
    requires n < 1000
    ensures |r| == 3 && AllDigits(r)
  {
    [DigitChar(n / 100), DigitChar(n / 10 % 10), DigitChar(n % 10)]
  }

  /** `new Date(ms).toISOString()`. */
  function IsoText(c: Calendar, ms: nat): string {
    c.date(ms / MsPerDay) + ("T" + c.time(ms / 1000 % SecondsPerDay) + "." + ThreeDigits(ms % 1000) + "Z")
  }

  /** `datetime('now')` at second `now`. */
  function SqliteNowText(c: Calendar, now: nat): string {
    c.date(now / SecondsPerDay) + (" " + c.time(now % SecondsPerDay))
  }

  /** The session test as written: the stored text sorts above the text of
      the current time. */
  predicate LiveAsWritten(c: Calendar, expiresAt: nat, now: nat) {
    LexLess(SqliteNowText(c, now), IsoText(c, expiresAt))
  }

  /** The test as written compares UTC days: a session is accepted through
      the whole day its expiry falls on, and rejected from the next day. */
  lemma LiveAsWrittenComparesDays(c: Calendar, expiresAt: nat, now: nat)
    requires WellFormed(c)
    requires expiresAt / MsPerDay < Days && now / SecondsPerDay < Days
    ensures LiveAsWritten(c, expiresAt, now) <==> expiresAt / MsPerDay >= now / SecondsPerDay
  {
    var de, dn := expiresAt / MsPerDay, now / SecondsPerDay;
    var isoRest := "T" + c.time(expiresAt / 1000 % SecondsPerDay) + "." + ThreeDigits(expiresAt % 1000) + "Z";
    var nowRest := " " + c.time(now % SecondsPerDay);
    assert IsoText(c, expiresAt) == c.date(de) + isoRest;
    assert SqliteNowText(c, now) == c.date(dn) + nowRest;
    if de == dn {
      LexLessCommonPrefix(c.date(de), nowRest, isoRest);
      assert nowRest[0] == ' ' && isoRest[0] == 'T';
    } else if de > dn {
      LexLessEqualWidthPrefix(c.date(dn), c.date(de), nowRest, isoRest);
    } else {
      LexLessEqualWidthPrefix(c.date(de), c.date(dn), isoRest, nowRest);
      LexLessAsymmetric(IsoText(c, expiresAt), SqliteNowText(c, now));
    }
  }

  /** A login at a UTC midnight `t` writes the expiry `t + 24h`, which the
      test as written still accepts one second before `t + 48h`. */
  lemma StaleSessionAccepted(c: Calendar, t: nat)
    requires WellFormed(c)
    requires t % MsPerDay == 0 && t / MsPerDay + 1 < Days
    ensures LiveAsWritten(c, t + MsPerDay, t / 1000 + 2 * SecondsPerDay - 1)
    ensures (t / 1000 + 2 * SecondsPerDay - 1) * 1000 > t + MsPerDay
  {
    LiveAsWrittenComparesDays(c, t + MsPerDay, t / 1000 + 2 * SecondsPerDay - 1);
  }

  /** The intended test: the expiry lies after the current moment. */
  predicate Unexpired(expiresAt: nat, nowMs: nat) {
    expiresAt > nowMs
  }

  /** Wherever the intended test accepts, the test as written accepts too;
      the converse fails, as `StaleSessionAccepted` shows. */
  lemma IntendedWithinAsWritten(c: Calendar, expiresAt: nat, nowMs: nat)
    requires WellFormed(c)
    requires expiresAt / MsPerDay < Days && nowMs / MsPerDay < Days
    requires Unexpired(expiresAt, nowMs)
    ensures LiveAsWritten(c, expiresAt, nowMs / 1000)
  {
    assert nowMs / 1000 / SecondsPerDay == nowMs / MsPerDay;
    LiveAsWrittenComparesDays(c, expiresAt, nowMs / 1000);
  }
}
