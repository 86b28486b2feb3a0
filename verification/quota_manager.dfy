/** `QuotaManager`: a monthly request counter persisted in a file. The file
    is a parameter (`None` when it does not exist) and every operation
    returns the file it leaves; the clock is the current month's text. */
module QuotaManager {
  import opened Wrappers
  import opened PyStr

  /** The cap below Google's 10k monthly free tier. */
  const MaxMonthlyQuota: int := 9500

  /** The persisted usage: the month it counts for and the count. */
  datatype Usage = Usage(month: string, count: int)

  datatype Quota = Quota(maxRequests: int, usage: Usage)

  /** `load_usage`: the stored usage when it is for the current month,
      otherwise a fresh count of 0 for the current month, which is then
      written. */
  function LoadUsage(file: Option<Usage>, now: string): (r: (Usage, Option<Usage>))
    ensures r.0.month == now
    ensures file.Some? && file.value.month == now ==> r.0.count == file.value.count && r.1 == file
    ensures file.None? || file.value.month != now ==> r.0.count == 0
    ensures r.1 == Some(r.0)
  {
    var data := if file.Some? then file.value else Usage(now, 0);
    if data.month != now then (Usage(now, 0), Some(Usage(now, 0)))
    else (data, Some(data))
  }

  /** `QuotaManager(max_requests)`. */
  function New(file: Option<Usage>, now: string, maxRequests: int := MaxMonthlyQuota): (r: (Quota, Option<Usage>))
    ensures r.0.maxRequests == maxRequests
    ensures r.0.usage.month == now
    ensures r.1 == Some(r.0.usage)
  {
    var (usage, file') := LoadUsage(file, now);
    (Quota(maxRequests, usage), file')
  }

  /** `increment`: one more request this month, written to the file, whether
      or not the cap is reached. */
  function Increment(q: Quota): (r: (Quota, Option<Usage>))
    ensures r.0.usage.count == q.usage.count + 1
    ensures r.0.usage.month == q.usage.month && r.0.maxRequests == q.maxRequests
    ensures r.1 == Some(r.0.usage)
  {
    var q' := q.(usage := q.usage.(count := q.usage.count + 1));
    (q', Some(q'.usage))
  }

  /** `get_usage`: the count of the month loaded. */
  function GetUsage(q: Quota): int {
    q.usage.count
  }

  /** After a restart and `n` increments, `get_usage` reports the count the
      file held for this month (0 for no file or another month's) plus `n`. */
  lemma UsageAfterIncrements(file: Option<Usage>, now: string, n: nat)
    ensures var (q, _) := New(file, now);
      GetUsage(Increments(q, n).0) ==
        (if file.Some? && file.value.month == now then file.value.count else 0) + n
  {
    var (q, _) := New(file, now);
    IncrementsAdd(q, n);
  }

  /** `remaining`: what is left of the cap; not clamped, so it is negative
      once the count passes the cap. */
  function Remaining(q: Quota): (r: int)
    ensures r + GetUsage(q) == q.maxRequests
    ensures r < 0 <==> GetUsage(q) > q.maxRequests
  {
    q.maxRequests - q.usage.count
  }

  /** `is_within_limit`: another request is allowed exactly while something
      remains. */
  function IsWithinLimit(q: Quota): (r: bool)
    ensures r <==> Remaining(q) > 0
  {
    GetUsage(q) < q.maxRequests
  }

  /** `n` calls of `increment`, with the file the last one wrote. */
  function Increments(q: Quota, n: nat): (Quota, Option<Usage>)
    decreases n
  {
    if n == 0 then (q, Some(q.usage))
    else Increment(Increments(q, n - 1).0)
  }

  /** `n` increments add exactly `n`, ignoring the cap, and leave the month
      alone; the file holds the final count. */
  lemma {:induction false} IncrementsAdd(q: Quota, n: nat)
    ensures var (q', file) := Increments(q, n);
      && q'.usage == Usage(q.usage.month, q.usage.count + n)
      && q'.maxRequests == q.maxRequests
      && file == Some(q'.usage)
  {
    if n > 0 {
      IncrementsAdd(q, n - 1);
    }
  }

  /** A fresh manager stops being within the limit after exactly
      `maxRequests` increments and then goes negative. */
  lemma CapIsNotEnforced(now: string, maxRequests: nat)
    ensures var q := New(None, now, maxRequests).0;
      && !IsWithinLimit(Increments(q, maxRequests).0)
      && Remaining(Increments(q, maxRequests + 1).0) == -1
  {
    var q := New(None, now, maxRequests).0;
    IncrementsAdd(q, maxRequests);
    IncrementsAdd(q, maxRequests + 1);
  }

  /** Restarting in the same month restores the count the last operation
      wrote, however many increments there were. */
  lemma {:induction false} RestartKeepsCount(file: Option<Usage>, now: string, n: nat)
    ensures var (q, _) := New(file, now);
      var (q', file') := Increments(q, n);
      New(file', now).0 == q'
  {
    var (q, _) := New(file, now);
    IncrementsAdd(q, n);
  }

  /** Restarting in another month starts again from 0. */
  lemma NewMonthResets(file: Option<Usage>, before: string, now: string, n: nat)
    requires before != now
    ensures var (q, _) := New(file, before);
      var (q', file') := Increments(q, n);
      GetUsage(New(file', now).0) == 0
  {
    var (q, _) := New(file, before);
    IncrementsAdd(q, n);
  }

  /** The two-digit text of `d`, 0 <= d < 100. */
  function TwoDigits(d: nat): (s: string)
    requires d < 100
    ensures |s| == 2
  {
    [DigitChar(d / 10), DigitChar(d % 10)]
  }

  /** `strftime("%Y-%m")` for a four-digit year: "YYYY-MM". */
  function MonthText(year: nat, month: nat): (s: string)
    requires 1000 <= year <= 9999 && 1 <= month <= 12
    ensures |s| == 7 && s[4] == '-'
  {
    TwoDigits(year / 100) + TwoDigits(year % 100) + "-" + TwoDigits(month)
  }

  lemma TwoDigitsInjective(a: nat, b: nat)
    requires a < 100 && b < 100 && TwoDigits(a) == TwoDigits(b)
    ensures a == b
  {
    assert TwoDigits(a)[0] == TwoDigits(b)[0] && TwoDigits(a)[1] == TwoDigits(b)[1];
  }

  /** Different months have different texts, so a count is never carried
      into another month. */
  lemma MonthTextInjective(y1: nat, m1: nat, y2: nat, m2: nat)
    requires 1000 <= y1 <= 9999 && 1 <= m1 <= 12
    requires 1000 <= y2 <= 9999 && 1 <= m2 <= 12
    requires MonthText(y1, m1) == MonthText(y2, m2)
    ensures y1 == y2 && m1 == m2
  {
    var s1, s2 := MonthText(y1, m1), MonthText(y2, m2);
    assert s1[..2] == TwoDigits(y1 / 100) && s2[..2] == TwoDigits(y2 / 100);
    assert s1[2..4] == TwoDigits(y1 % 100) && s2[2..4] == TwoDigits(y2 % 100);
    assert s1[5..] == TwoDigits(m1) && s2[5..] == TwoDigits(m2);
    TwoDigitsInjective(y1 / 100, y2 / 100);
    TwoDigitsInjective(y1 % 100, y2 % 100);
    TwoDigitsInjective(m1, m2);
  }

  /** A restart in a later calendar month, as `strftime("%Y-%m")` names it,
      starts from 0 whatever the file held. */
  lemma CalendarMonthResets(file: Option<Usage>, y1: nat, m1: nat, y2: nat, m2: nat, n: nat)
    requires 1000 <= y1 <= 9999 && 1 <= m1 <= 12
    requires 1000 <= y2 <= 9999 && 1 <= m2 <= 12
    requires y1 != y2 || m1 != m2
    ensures var (q, _) := New(file, MonthText(y1, m1));
      var (q', file') := Increments(q, n);
      GetUsage(New(file', MonthText(y2, m2)).0) == 0
  {
    if MonthText(y1, m1) == MonthText(y2, m2) {
      MonthTextInjective(y1, m1, y2, m2);
    }
    NewMonthResets(file, MonthText(y1, m1), MonthText(y2, m2), n);
  }
}
