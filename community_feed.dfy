/**
 * The community activity panel (src/client/components/CommunityFeed.tsx): the relative-time
 * label `formatTimeAgo`, the state that each poll of the activity endpoint replaces, and the
 * first three entries it displays.
 */
module CommunityFeed {
  import opened Wrappers

  const MsPerMinute: int := 60000
  const MsPerHour: int := 3600000
  const MsPerDay: int := 86400000

  function Digit(d: nat): (c: char)
    requires d < 10
    ensures '0' <= c <= '9'
  {
    "0123456789"[d]
  }

  /** The decimal text of a non-negative integer, as a template literal prints it. */
  function NatToString(n: nat): (s: string)
    ensures |s| >= 1 && (n >= 10 <==> |s| >= 2)
    ensures forall i :: 0 <= i < |s| ==> '0' <= s[i] <= '9'
  {
    if n < 10 then [Digit(n)] else NatToString(n / 10) + [Digit(n % 10)]
  }

  /** Reads a string of decimal digits back as a number. */
  function ParseNat(s: string): (n: nat)
    requires forall i :: 0 <= i < |s| ==> '0' <= s[i] <= '9'
  {
    if s == [] then 0
    else ParseNat(s[..|s| - 1]) * 10 + ((s[|s| - 1] as int) - ('0' as int))
  }

  /** Printing a number and reading it back gives the number. */
  lemma {:induction false} ParseNatToString(n: nat)
    ensures ParseNat(NatToString(n)) == n
  {
    var s := NatToString(n);
    if n >= 10 {
      ParseNatToString(n / 10);
      assert s[..|s| - 1] == NatToString(n / 10);
    }
  }

  /** Distinct numbers print differently. */
  lemma NatToStringInjective(a: nat, b: nat)
    requires NatToString(a) == NatToString(b)
    ensures a == b
  {
    ParseNatToString(a);
    ParseNatToString(b);
  }

  /** formatTimeAgo, with the clock reading passed in. */
  function FormatTimeAgo(now: int, timestamp: int): (text: string)
    ensures text == AgoText(Bucket(now - timestamp))
  {
    var diff := now - timestamp;
    var minutes := diff / MsPerMinute;
    if minutes < 1 then "just now"
    else if minutes == 1 then "1 min ago"
    else if minutes < 60 then NatToString(minutes) + " mins ago"
    else
      var hours := minutes / 60;
      HoursMinutes(diff);
      if hours == 1 then "1 hour ago"
      else if hours < 24 then NatToString(hours) + " hours ago"
      else "yesterday"
  }

  /** Whole hours counted from whole minutes equal whole hours counted from milliseconds. */
  lemma HoursMinutes(diff: int)
    requires diff >= 0
    ensures (diff / MsPerMinute) / 60 == diff / MsPerHour
  {
  }

  /** The four relative-time buckets. */
  datatype Ago = JustNow | MinutesAgo(minutes: nat) | HoursAgo(hours: nat) | Yesterday

  /** The bucket of a time difference in milliseconds, by the range it falls in. */
  function Bucket(diff: int): (b: Ago)
    ensures b.JustNow? <==> diff < MsPerMinute
    ensures b.MinutesAgo? ==>
      1 <= b.minutes < 60 && b.minutes * MsPerMinute <= diff < (b.minutes + 1) * MsPerMinute
    ensures b.HoursAgo? ==>
      1 <= b.hours < 24 && b.hours * MsPerHour <= diff < (b.hours + 1) * MsPerHour
    ensures b.Yesterday? <==> diff >= MsPerDay
  {
    if diff < MsPerMinute then JustNow
    else if diff < MsPerHour then MinutesAgo(diff / MsPerMinute)
    else if diff < MsPerDay then HoursAgo(diff / MsPerHour)
    else Yesterday
  }

  /** The label of a bucket, singular for exactly one minute or hour. */
  function AgoText(b: Ago): (text: string) {
    match b
    case JustNow => "just now"
    case MinutesAgo(m) => if m == 1 then "1 min ago" else NatToString(m) + " mins ago"
    case HoursAgo(h) => if h == 1 then "1 hour ago" else NatToString(h) + " hours ago"
    case Yesterday => "yesterday"
  }

  /** The character eight places from the end tells the six label shapes apart. */
  function ShapeMark(b: Ago): (mark: char) {
    match b
    case JustNow => 'j'
    case MinutesAgo(m) => if m == 1 then ' ' else 'm'
    case HoursAgo(h) => if h == 1 then 'h' else 'o'
    case Yesterday => 'e'
  }

  lemma ShapeMarkAt(b: Ago)
    ensures |AgoText(b)| >= 8 && AgoText(b)[|AgoText(b)| - 8] == ShapeMark(b)
  {
  }

  /** Distinct buckets carry distinct labels: every label names exactly one bucket. */
  lemma AgoTextInjective(x: Ago, y: Ago)
    requires AgoText(x) == AgoText(y)
    ensures x == y
  {
    ShapeMarkAt(x);
    ShapeMarkAt(y);
    assert ShapeMark(x) == ShapeMark(y);
    match x
    case MinutesAgo(m) =>
      var n := y.minutes;
      if m != 1 {
        var dm, dn := NatToString(m), NatToString(n);
        assert dm == (dm + " mins ago")[..|dm|];
        assert dn == (dn + " mins ago")[..|dn|];
        NatToStringInjective(m, n);
      }
    case HoursAgo(h) =>
      var k := y.hours;
      if h != 1 {
        var dh, dk := NatToString(h), NatToString(k);
        assert dh == (dh + " hours ago")[..|dh|];
        assert dk == (dk + " hours ago")[..|dk|];
        NatToStringInjective(h, k);
      }
    case _ =>
  }

  /** Timestamps less than a minute old, or in the future, read "just now". */
  lemma FutureIsJustNow(now: int, timestamp: int)
    requires timestamp > now - MsPerMinute
    ensures FormatTimeAgo(now, timestamp) == "just now"
  {
  }

  /** One entry of the activity log. */
  datatype CommunityAction = CommunityAction(
    id: string, username: string, action: string, message: string, timestamp: int)

  /** The parsed body of an OK response; both fields may be absent. */
  datatype FeedReply = FeedReply(actions: Option<seq<CommunityAction>>, totalActions: Option<int>)

  /** One displayed entry: user, message and relative time, keyed by the entry's id. */
  datatype Row = Row(key: string, username: string, message: string, when: string)

  /** What the panel shows: the placeholder, or rows. */
  datatype FeedView = Placeholder | Rows(rows: seq<Row>)

  function RowOf(a: CommunityAction, now: int): (row: Row) {
    Row(a.id, a.username, a.message, FormatTimeAgo(now, a.timestamp))
  }

  /** The rendering of a list of entries, element by element. */
  function RowsOf(xs: seq<CommunityAction>, now: int): (rows: seq<Row>)
    ensures |rows| == |xs|
    ensures forall i :: 0 <= i < |xs| ==> rows[i] == RowOf(xs[i], now)
  {
    if xs == [] then [] else [RowOf(xs[0], now)] + RowsOf(xs[1..], now)
  }

  /** At most the first three entries, in the order received; the placeholder when there
      are none. */
  function Display(actions: seq<CommunityAction>, now: int): (v: FeedView)
    ensures v.Placeholder? <==> actions == []
    ensures v.Rows? ==>
      |v.rows| == (if |actions| < 3 then |actions| else 3)
      && forall i :: 0 <= i < |v.rows| ==> v.rows[i] == RowOf(actions[i], now)
  {
    if |actions| > 0 then
      Rows(RowsOf(if |actions| < 3 then actions else actions[..3], now))
    else Placeholder
  }

  class Feed {
    var recentActions: seq<CommunityAction>
    var totalActions: int

    constructor ()
      ensures recentActions == [] && totalActions == 0
    {
      recentActions := [];
      totalActions := 0;
    }

    /** fetchCommunityActions, given the parsed body of an OK response (None when the
        request failed or was not OK): an OK reply replaces both fields wholesale,
        defaulting to no entries and a zero total. */
    method Fetch(reply: Option<FeedReply>)
      modifies this
      ensures reply.None? ==> unchanged(this)
      ensures reply.Some? ==>
        recentActions == reply.value.actions.GetOr([])
        && totalActions == reply.value.totalActions.GetOr(0)
    {
      if reply.Some? {
        recentActions := reply.value.actions.GetOr([]);
        totalActions := reply.value.totalActions.GetOr(0);
      }
    }

    /** The panel as rendered at time `now`. */
    function View(now: int): (v: FeedView)
      reads this
      ensures v.Placeholder? <==> recentActions == []
      ensures v.Rows? ==> |v.rows| <= 3 && |v.rows| <= |recentActions|
    {
      Display(recentActions, now)
    }
  }
}
