/**
  The real-time alerts panel (`components/RealTimeAlerts.tsx`): the alert
  list with mark-as-read, delete and the arrival of a new alert at the top,
  the unread badge count, the relative timestamps, and the notification
  settings toggles. Times are milliseconds since the epoch and the current
  time is a parameter.
 */
module Alerts {
  import opened Optional
  import opened Text
  import opened Lists

  datatype AlertType = Success | Warning | Info | Urgent

  datatype Alert = Alert(
    id: string,
    title: string,
    message: string,
    alertType: AlertType,
    timestamp: int,
    isRead: bool,
    category: string,
    schemeDate: Option<int>,
    deadline: Option<int>)

  const MsPerMinute := 1000 * 60
  const MsPerHour := 1000 * 60 * 60
  const MsPerDay := 1000 * 60 * 60 * 24

  predicate IsUnread(a: Alert) { !a.isRead }

  /** `unreadCount`: the alerts not yet read. */
  function UnreadCount(alerts: seq<Alert>): (n: nat)
    ensures n <= |alerts|
    ensures n == 0 <==> forall i :: 0 <= i < |alerts| ==> alerts[i].isRead
  {
    Count(alerts, (a: Alert) => !a.isRead)
  }

  /** `markAsRead(id)`: every alert with that id becomes read; nothing else
      about any alert changes, and the list keeps its length and order. */
  function MarkAsRead(alerts: seq<Alert>, id: string): (r: seq<Alert>)
    ensures |r| == |alerts|
    ensures forall i :: 0 <= i < |r| ==> r[i].isRead == (alerts[i].isRead || alerts[i].id == id)
    ensures forall i :: 0 <= i < |r| ==> r[i].(isRead := alerts[i].isRead) == alerts[i]
  {
    if alerts == [] then []
    else
      var a := alerts[0];
      [if a.id == id then a.(isRead := true) else a] + MarkAsRead(alerts[1..], id)
  }

  /** Marking the same id read twice is the same as once. */
  lemma MarkAsReadIdempotent(alerts: seq<Alert>, id: string)
    ensures MarkAsRead(MarkAsRead(alerts, id), id) == MarkAsRead(alerts, id)
  {
    var once := MarkAsRead(alerts, id);
    var twice := MarkAsRead(once, id);
    forall i | 0 <= i < |alerts|
      ensures twice[i] == once[i]
    {
      assert twice[i].(isRead := once[i].isRead) == once[i];
    }
  }

  /** The badge drops by exactly the number of unread alerts carrying the id,
      so it never grows. */
  lemma {:induction false} MarkAsReadUnreadCount(alerts: seq<Alert>, id: string)
    ensures UnreadCount(MarkAsRead(alerts, id))
      == UnreadCount(alerts) - Count(alerts, (a: Alert) => !a.isRead && a.id == id)
    ensures UnreadCount(MarkAsRead(alerts, id)) <= UnreadCount(alerts)
  {
    CountMonotonic(alerts, (a: Alert) => !a.isRead && a.id == id, (a: Alert) => !a.isRead);
    if alerts != [] {
      MarkAsReadUnreadCount(alerts[1..], id);
      assert MarkAsRead(alerts, id)[1..] == MarkAsRead(alerts[1..], id);
    }
  }

  /** `deleteAlert(id)`: the alerts with that id go, the others stay in order. */
  function DeleteAlert(alerts: seq<Alert>, id: string): (r: seq<Alert>)
    ensures forall a :: a in r <==> a in alerts && a.id != id
    ensures forall a :: multiset(r)[a] == if a.id != id then multiset(alerts)[a] else 0
  {
    FilterMultiset(alerts, (a: Alert) => a.id != id);
    Filter(alerts, (a: Alert) => a.id != id)
  }

  lemma DeleteKeepsOrder(alerts: seq<Alert>, id: string)
    ensures IsSubsequence(DeleteAlert(alerts, id), alerts)
  {
    FilterIsSubsequence(alerts, (a: Alert) => a.id != id);
  }

  /** The simulated arrival: a new, unread alert stamped with the current
      time. Its id, message, type and category are chosen by the caller (the
      page draws them from the clock and at random). */
  function NewAlert(id: string, message: string, alertType: AlertType, category: string, now: int): (a: Alert)
    ensures IsUnread(a) && a.timestamp == now && a.id == id
  {
    Alert(id, "Real-time Update", message, alertType, now, false, category, None, None)
  }

  /** `setAlerts(prev => [newAlert, ...prev])`. */
  function PushAlert(alerts: seq<Alert>, a: Alert): (r: seq<Alert>)
    ensures |r| == |alerts| + 1 && r[0] == a && r[1..] == alerts
  {
    [a] + alerts
  }

  /** A new alert raises the unread badge by exactly one. */
  lemma PushRaisesUnread(alerts: seq<Alert>, id: string, message: string, alertType: AlertType, category: string, now: int)
    ensures UnreadCount(PushAlert(alerts, NewAlert(id, message, alertType, category, now))) == UnreadCount(alerts) + 1
  {
    var r := PushAlert(alerts, NewAlert(id, message, alertType, category, now));
    assert r[1..] == alerts;
  }

  /** Reading the newest alert right after it arrives restores the badge, when its id is new. */
  lemma PushThenRead(alerts: seq<Alert>, id: string, message: string, alertType: AlertType, category: string, now: int)
    requires forall i :: 0 <= i < |alerts| ==> alerts[i].id != id
    ensures UnreadCount(MarkAsRead(PushAlert(alerts, NewAlert(id, message, alertType, category, now)), id))
      == UnreadCount(alerts)
  {
    var r := PushAlert(alerts, NewAlert(id, message, alertType, category, now));
    MarkAsReadUnreadCount(r, id);
    var p := (a: Alert) => !a.isRead && a.id == id;
    assert r[1..] == alerts;
    assert Count(alerts, p) == 0;
  }

  /** How long ago an alert arrived, as `formatTimestamp` buckets it. */
  datatype Ago = JustNow | MinutesAgo(minutes: int) | HoursAgo(hours: int) | DaysAgo(days: int)

  /** The bucket of an elapsed time `diff` in milliseconds. `Math.floor` of a
      quotient by a positive divisor is Dafny's `/` on `int`, also for a
      negative `diff` (an alert stamped in the future reads "Just now"). */
  function Bucket(diff: int): (b: Ago)
    ensures b == JustNow <==> diff < MsPerMinute
    ensures b.MinutesAgo? ==> 1 <= b.minutes < 60 && b.minutes * MsPerMinute <= diff < (b.minutes + 1) * MsPerMinute
    ensures b.HoursAgo? ==> 1 <= b.hours < 24 && b.hours * MsPerHour <= diff < (b.hours + 1) * MsPerHour
    ensures b.DaysAgo? ==> 1 <= b.days && b.days * MsPerDay <= diff < (b.days + 1) * MsPerDay
  {
    var minutes := diff / MsPerMinute;
    var hours := diff / MsPerHour;
    var days := diff / MsPerDay;
    if minutes < 1 then JustNow
    else if minutes < 60 then MinutesAgo(minutes)
    else if hours < 24 then HoursAgo(hours)
    else DaysAgo(days)
  }

  /** Each elapsed time lands in the bucket whose range holds it. */
  lemma BucketRanges(diff: int)
    ensures MsPerMinute <= diff < MsPerHour ==> Bucket(diff) == MinutesAgo(diff / MsPerMinute)
    ensures MsPerHour <= diff < MsPerDay ==> Bucket(diff) == HoursAgo(diff / MsPerHour)
    ensures MsPerDay <= diff ==> Bucket(diff) == DaysAgo(diff / MsPerDay)
  {
  }

  function AgoText(b: Ago): string
  {
    match b
    case JustNow => "Just now"
    case MinutesAgo(m) => NatToString(if m < 0 then 0 else m) + "m ago"
    case HoursAgo(h) => NatToString(if h < 0 then 0 else h) + "h ago"
    case DaysAgo(d) => NatToString(if d < 0 then 0 else d) + "d ago"
  }

  /** Only the first bucket reads "Just now": the others end in "ago". */
  lemma AgoTextJustNow(b: Ago)
    ensures AgoText(b) == "Just now" <==> b == JustNow
  {
    if b != JustNow {
      var t := AgoText(b);
      assert t[|t| - 1] == 'o';
    }
  }

  /** `formatTimestamp(timestamp)` at time `now`. */
  function FormatTimestamp(now: int, timestamp: int): (text: string)
    ensures now - timestamp < MsPerMinute <==> text == "Just now"
  {
    AgoTextJustNow(Bucket(now - timestamp));
    AgoText(Bucket(now - timestamp))
  }

  /** Past the first minute the text is the floor count of the largest unit
      that fits, minutes below an hour, hours below a day, days beyond. */
  lemma FormatTimestampUnits(now: int, timestamp: int)
    ensures MsPerMinute <= now - timestamp < MsPerHour ==>
      FormatTimestamp(now, timestamp) == NatToString((now - timestamp) / MsPerMinute) + "m ago"
    ensures MsPerHour <= now - timestamp < MsPerDay ==>
      FormatTimestamp(now, timestamp) == NatToString((now - timestamp) / MsPerHour) + "h ago"
    ensures MsPerDay <= now - timestamp ==>
      FormatTimestamp(now, timestamp) == NatToString((now - timestamp) / MsPerDay) + "d ago"
  {
    BucketRanges(now - timestamp);
  }

  /** The alert of the initial list stamped half an hour ago reads "30m ago". */
  lemma HalfAnHourAgo(now: int)
    ensures FormatTimestamp(now, now - 1000 * 60 * 30) == "30m ago"
  {
    assert Bucket(1000 * 60 * 30) == MinutesAgo(30);
    assert NatToString(30) == "30";
  }

  /** The five notification switches, all on at first. */
  datatype NotificationKey = Applications | Payments | Schemes | Deadlines | DocumentsKey

  datatype Notifications = Notifications(applications: bool, payments: bool, schemes: bool, deadlines: bool, documents: bool)
  {
    function Get(k: NotificationKey): bool
    {
      match k
      case Applications => applications
      case Payments => payments
      case Schemes => schemes
      case Deadlines => deadlines
      case DocumentsKey => documents
    }
  }

  const InitialNotifications := Notifications(true, true, true, true, true)

  /** The switch for `k`: `{...prev, [key]: !value}`. */
  function Toggle(n: Notifications, k: NotificationKey): (r: Notifications)
    ensures r.Get(k) == !n.Get(k)
    ensures forall j :: j != k ==> r.Get(j) == n.Get(j)
  {
    match k
    case Applications => n.(applications := !n.applications)
    case Payments => n.(payments := !n.payments)
    case Schemes => n.(schemes := !n.schemes)
    case Deadlines => n.(deadlines := !n.deadlines)
    case DocumentsKey => n.(documents := !n.documents)
  }

  /** Toggling the same switch twice restores the settings. */
  lemma ToggleTwice(n: Notifications, k: NotificationKey)
    ensures Toggle(Toggle(n, k), k) == n
  {
  }
}
