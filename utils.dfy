/** The two pure display helpers of client/src/lib/utils.ts. */
module Utils {
  import opened Builtins

  /** `truncateAddress`: the first four and the last four characters around
      an ellipsis; the empty string stays empty. */
  function TruncateAddress(address: string): (r: string)
    ensures address == "" ==> r == ""
    ensures address != "" ==>
              var n := if |address| < 4 then |address| else 4;
              r == address[..n] + "..." + address[|address| - n..]
  {
    if address == "" then ""
    else Slice(address, 0, 4) + "..." + Slice(address, -4, |address|)
  }

  /** An address of at most four characters is shown twice, not shortened. */
  lemma ShortAddressShownTwice(address: string)
    requires 0 < |address| <= 4
    ensures TruncateAddress(address) == address + "..." + address
  {
  }

  /** An address of at least four characters comes out exactly eleven characters long. */
  lemma TruncatedLength(address: string)
    requires |address| >= 4
    ensures |TruncateAddress(address)| == 11
  {
  }

  /** The label `getRelativeTime` chooses; `AbsoluteDate` stands for the
      locale date text of the fallback. */
  datatype RelativeTime = JustNow | MinutesAgo(minutes: int) | HoursAgo(hours: int) | DaysAgo(days: int) | AbsoluteDate

  /** `getRelativeTime` with both instants in milliseconds since the epoch.
      `Math.floor(ms / 1000)` is Dafny's `/` by a positive divisor, which
      rounds down for negative dividends too. */
  function GetRelativeTime(nowMs: int, timestampMs: int): (r: RelativeTime)
    ensures var s := (nowMs - timestampMs) / 1000;
      && (s < 60 ==> r == JustNow)
      && (60 <= s < 3600 ==> r == MinutesAgo(s / 60))
      && (3600 <= s < 86400 ==> r == HoursAgo(s / 3600))
      && (86400 <= s < 604800 ==> r == DaysAgo(s / 86400))
      && (604800 <= s ==> r == AbsoluteDate)
  {
    var seconds := (nowMs - timestampMs) / 1000;
    if seconds < 60 then JustNow
    else
      var minutes := seconds / 60;
      if minutes < 60 then MinutesAgo(minutes)
      else
        var hours := minutes / 60;
        if hours < 24 then HoursAgo(hours)
        else
          var days := hours / 24;
          if days < 7 then DaysAgo(days)
          else AbsoluteDate
  }

  /** Buckets by freshness: just now, minutes, hours, days, a date. */
  function Rank(r: RelativeTime): nat
  {
    match r
    case JustNow => 0
    case MinutesAgo(_) => 1
    case HoursAgo(_) => 2
    case DaysAgo(_) => 3
    case AbsoluteDate => 4
  }

  /** An older timestamp never gets a fresher label, and the count shown in
      a bucket never decreases with age. */
  lemma OlderIsNeverFresher(nowMs: int, t1: int, t2: int)
    requires t2 <= t1
    ensures Rank(GetRelativeTime(nowMs, t1)) <= Rank(GetRelativeTime(nowMs, t2))
    ensures GetRelativeTime(nowMs, t1).MinutesAgo? && GetRelativeTime(nowMs, t2).MinutesAgo? ==>
              GetRelativeTime(nowMs, t1).minutes <= GetRelativeTime(nowMs, t2).minutes
    ensures GetRelativeTime(nowMs, t1).HoursAgo? && GetRelativeTime(nowMs, t2).HoursAgo? ==>
              GetRelativeTime(nowMs, t1).hours <= GetRelativeTime(nowMs, t2).hours
    ensures GetRelativeTime(nowMs, t1).DaysAgo? && GetRelativeTime(nowMs, t2).DaysAgo? ==>
              GetRelativeTime(nowMs, t1).days <= GetRelativeTime(nowMs, t2).days
  {
  }
}
