/** The state of the watch: the structure itself, its reset, and the notification cursor. */
module WatchModel {
  import opened Integers

  datatype Screen = Home | Notifications | Music | Assistant | Settings

  datatype Connection = Offline | Connecting | Online

  datatype Notification = Notification(title: string, body: string)

  const NOTIFICATION_CAPACITY: U8 := 4
  const TITLE_CAPACITY := 48
  const BODY_CAPACITY := 96
  const CONDITION_CAPACITY := 32
  const MUSIC_TITLE_CAPACITY := 64

  /** `entries` has one element per slot; the first `stored` of them are in use. */
  datatype NotificationList = NotificationList(total: U16, stored: U8, active: U8, entries: seq<Notification>)

  const BLANK := Notification("", "")
  const NO_NOTIFICATIONS := NotificationList(0, 0, 0, [BLANK, BLANK, BLANK, BLANK])

  /** The fields the host owns. */
  datatype HostData = HostData(
    steps: U32,
    temperature: I16,
    condition: string,
    title: string,
    playing: bool,
    notifications: NotificationList)

  datatype State = State(
    screen: Screen,
    connection: Connection,
    battery: U8,
    host: HostData,
    actionPending: bool,
    feedback: string,
    stale: bool,
    updatedAt: U64)

  /** `strncpy` into a buffer of `capacity` bytes, then a terminator in the last one. */
  function Truncate(text: string, capacity: nat): string
    requires capacity > 0
  {
    text[..Min(|text|, capacity - 1)]
  }

  predicate Fits(text: string, capacity: nat) {
    |text| < capacity
  }

  /** At most four stored, and the cursor on one of them, or at zero when there is none. */
  predicate NotificationsOk(n: NotificationList) {
    n.stored <= NOTIFICATION_CAPACITY && ((n.stored == 0 && n.active == 0) || n.active < n.stored)
  }

  /** What every host-owned value reachable on the watch satisfies. */
  predicate HostOk(h: HostData) {
    Fits(h.condition, CONDITION_CAPACITY) && Fits(h.title, MUSIC_TITLE_CAPACITY) && NotificationsOk(h.notifications)
  }

  const RESET_HOST := HostData(0, 0, "Unavailable", "Nothing playing", false, NO_NOTIFICATIONS)

  function ResetHostOwned(s: State): State {
    s.(host := RESET_HOST, actionPending := false, feedback := "", stale := false, updatedAt := 0)
  }

  const INITIAL :=
    State(Home, Offline, 72, RESET_HOST.(steps := 7421, temperature := 28, condition := "Clear"), false, "", false, 0)

  function WithActive(s: State, active: U8): State {
    s.(host := s.host.(notifications := s.host.notifications.(active := active)))
  }

  /** Advancing the notification cursor; it stops at the last stored one. */
  function NextNotification(s: State): Option<State> {
    if s.host.notifications.active + 1 >= s.host.notifications.stored then None
    else Some(WithActive(s, s.host.notifications.active + 1))
  }

  function PreviousNotification(s: State): Option<State> {
    if s.host.notifications.active == 0 then None
    else Some(WithActive(s, s.host.notifications.active - 1))
  }

  class WatchState {
    var activeScreen: Screen
    var connection: Connection
    var batteryPercent: U8
    var host: HostData
    var musicActionPending: bool
    var musicActionFeedback: string
    var hostDataStale: bool
    var hostDataUpdatedAtMs: U64
    const timeText: string
    const dayText: string
    const dateText: string

    function View(): State
      reads this
    {
      State(activeScreen, connection, batteryPercent, host, musicActionPending, musicActionFeedback,
            hostDataStale, hostDataUpdatedAtMs)
    }

    constructor ()
      ensures View() == INITIAL
      ensures timeText == "21:45" && dayText == "THU" && dateText == "SEP 24"
    {
      timeText, dayText, dateText := "21:45", "THU", "SEP 24";
      activeScreen, connection, batteryPercent := Home, Offline, 72;
      new;
      ResetHost();
      host := host.(steps := 7421, temperature := 28, condition := "Clear");
    }

    method ResetHost()
      modifies this
      ensures View() == ResetHostOwned(old(View()))
    {
      host := HostData(0, 0, "Unavailable", "Nothing playing", false, NO_NOTIFICATIONS);
      musicActionPending := false;
      musicActionFeedback := "";
      hostDataStale := false;
      hostDataUpdatedAtMs := 0;
    }

    /** Structure assignment. */
    method Assign(s: State)
      modifies this
      ensures View() == s
    {
      activeScreen, connection, batteryPercent := s.screen, s.connection, s.battery;
      host := s.host;
      musicActionPending, musicActionFeedback := s.actionPending, s.feedback;
      hostDataStale, hostDataUpdatedAtMs := s.stale, s.updatedAt;
    }

    method NotificationNext() returns (moved: bool)
      modifies this
      ensures moved == NextNotification(old(View())).Some?
      ensures View() == if moved then NextNotification(old(View())).value else old(View())
    {
      if host.notifications.active + 1 >= host.notifications.stored {
        return false;
      }
      host := host.(notifications := host.notifications.(active := host.notifications.active + 1));
      return true;
    }

    method NotificationPrevious() returns (moved: bool)
      modifies this
      ensures moved == PreviousNotification(old(View())).Some?
      ensures View() == if moved then PreviousNotification(old(View())).value else old(View())
    {
      if host.notifications.active == 0 {
        return false;
      }
      host := host.(notifications := host.notifications.(active := host.notifications.active - 1));
      return true;
    }
  }

  /** The cursor never leaves the stored notifications, and a step forward undoes a step back. */
  lemma CursorStaysStored(s: State)
    requires NotificationsOk(s.host.notifications)
    ensures NextNotification(s).Some? ==>
              NotificationsOk(NextNotification(s).value.host.notifications) &&
              PreviousNotification(NextNotification(s).value) == Some(s)
    ensures PreviousNotification(s).Some? ==>
              NotificationsOk(PreviousNotification(s).value.host.notifications) &&
              NextNotification(PreviousNotification(s).value) == Some(s)
  {}
}
