/** The usage record the embedded process hands to the renderer, and the
    sums every view computes over a list of them. */
module Records {
  import opened Wrappers
  import opened Seqs

  /** One row per (application, user, machine). The numeric fields may be
      absent; `lastActivity` is an ISO-8601 timestamp or absent. */
  datatype UsageRecord = UsageRecord(
    app: string,
    totalHours: Option<real>,
    usageCount: Option<nat>,
    username: string,
    computerName: string,
    ipAddress: string,
    lastActivity: Option<string>)

  /** `item.total_hours || 0`. */
  function Hours(r: UsageRecord): real {
    r.totalHours.GetOr(0.0)
  }

  /** `item.usage_count || 0`. */
  function Sessions(r: UsageRecord): nat {
    r.usageCount.GetOr(0)
  }

  /** `data.reduce((sum, item) => sum + (item.total_hours || 0), 0)`. */
  function SumHours(s: seq<UsageRecord>): real {
    if |s| == 0 then 0.0 else Hours(s[0]) + SumHours(s[1..])
  }

  /** `data.reduce((sum, item) => sum + (item.usage_count || 0), 0)`. */
  function SumSessions(s: seq<UsageRecord>): nat {
    if |s| == 0 then 0 else Sessions(s[0]) + SumSessions(s[1..])
  }

  predicate NonNegativeHours(s: seq<UsageRecord>) {
    forall i :: 0 <= i < |s| ==> Hours(s[i]) >= 0.0
  }

  /** With non-negative hours, a filtered list never sums to more than the
      full list, and no sum is negative. */
  lemma {:induction false} SumHoursFilterBounds(s: seq<UsageRecord>, p: UsageRecord -> bool)
    requires NonNegativeHours(s)
    ensures 0.0 <= SumHours(Filter(s, p)) <= SumHours(s)
  {
    if |s| > 0 {
      SumHoursFilterBounds(s[1..], p);
      if p(s[0]) {
        assert Filter(s, p)[1..] == Filter(s[1..], p);
      }
    }
  }

  /** Records a predicate keeps and records its complement keeps together
      account for the whole sum. */
  lemma {:induction false} SumHoursFilterSplit(s: seq<UsageRecord>, p: UsageRecord -> bool, q: UsageRecord -> bool)
    requires forall i :: 0 <= i < |s| ==> q(s[i]) == !p(s[i])
    ensures SumHours(Filter(s, p)) + SumHours(Filter(s, q)) == SumHours(s)
  {
    if |s| > 0 {
      SumHoursFilterSplit(s[1..], p, q);
      if p(s[0]) {
        assert Filter(s, p)[1..] == Filter(s[1..], p);
      } else {
        assert Filter(s, q)[1..] == Filter(s[1..], q);
      }
    }
  }

  /** `count > 0 ? total / count : 0` — the average used for sessions. */
  function Ratio(total: real, count: nat): (r: real)
    ensures count > 0 ==> r * count as real == total
    ensures count == 0 ==> r == 0.0
  {
    if count > 0 then total / count as real else 0.0
  }

  /** The usernames of a list of records, in order. */
  function Usernames(s: seq<UsageRecord>): (r: seq<string>)
    ensures |r| == |s| && forall i :: 0 <= i < |s| ==> r[i] == s[i].username
  {
    if |s| == 0 then [] else [s[0].username] + Usernames(s[1..])
  }

  /** The application names of a list of records, in order. */
  function Apps(s: seq<UsageRecord>): (r: seq<string>)
    ensures |r| == |s| && forall i :: 0 <= i < |s| ==> r[i] == s[i].app
  {
    if |s| == 0 then [] else [s[0].app] + Apps(s[1..])
  }
}
