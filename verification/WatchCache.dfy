/** The cache record, field by field: capture, restore, staleness and validity. */
module WatchCache {
  import opened Integers
  import opened WatchModel
  import Checksum

  const MAGIC: U32 := 0x434d4643
  const SCHEMA_VERSION: U32 := 1
  const SCREEN_COUNT := 5

  datatype Metadata = Metadata(version: U32, updatedAt: U64, stale: bool)

  /** Every field of the record but its checksum; `screen` is the stored number, which may be out of range. */
  datatype Contents = Contents(
    magic: U32,
    schema: U32,
    size: U32,
    weatherMeta: Metadata,
    temperature: I16,
    condition: string,
    activityMeta: Metadata,
    steps: U32,
    notificationsMeta: Metadata,
    notifications: NotificationList,
    musicMeta: Metadata,
    title: string,
    playing: bool,
    applicationMeta: Metadata,
    screen: U32,
    connectionMeta: Metadata,
    revision: U64,
    assetsMeta: Metadata,
    assetGeneration: U32)

  datatype Record = Record(contents: Contents, checksum: U32)

  /** How a compiler lays the record out: its size, and its bytes with the checksum field zero. */
  datatype Layout = Layout(size: U32, bytes: Contents -> seq<byte>)

  function Sum(l: Layout, c: Contents): U32 {
    Checksum.Fnv(Checksum.OFFSET_BASIS, l.bytes(c))
  }

  function Sealed(l: Layout, c: Contents): Record {
    Record(c, Sum(l, c))
  }

  /** The header and screen tests of the validity check. */
  predicate HeaderOk(l: Layout, c: Contents) {
    c.magic == MAGIC && c.schema == SCHEMA_VERSION && c.size == l.size && 0 <= c.screen < SCREEN_COUNT
  }

  predicate Valid(l: Layout, r: Record) {
    HeaderOk(l, r.contents) && NotificationsOk(r.contents.notifications) && r.checksum == Sum(l, r.contents)
  }

  function ScreenNumber(s: Screen): U32 {
    match s
    case Home => 0
    case Notifications => 1
    case Music => 2
    case Assistant => 3
    case Settings => 4
  }

  function ScreenOf(n: U32): Screen
    requires n < SCREEN_COUNT
  {
    if n == 0 then Home else if n == 1 then Notifications else if n == 2 then Music
    else if n == 3 then Assistant else Settings
  }

  const NO_META := Metadata(0, 0, false)

  function Blank(l: Layout): Contents {
    Contents(MAGIC, SCHEMA_VERSION, l.size, NO_META, 0, "", NO_META, 0, NO_META, NO_NOTIFICATIONS, NO_META, "", false,
             NO_META, 0, NO_META, 0, Metadata(1, 0, false), 1)
  }

  function Refreshed(m: Metadata, now: U64): Metadata {
    Metadata(WrapInc32(m.version), now, false)
  }

  function SyncCaptured(c: Contents, s: State, revision: U64, now: U64): Contents {
    c.(weatherMeta := Refreshed(c.weatherMeta, now),
       temperature := s.host.temperature,
       condition := Truncate(s.host.condition, CONDITION_CAPACITY),
       activityMeta := Refreshed(c.activityMeta, now),
       steps := s.host.steps,
       notificationsMeta := Refreshed(c.notificationsMeta, now),
       notifications := s.host.notifications,
       musicMeta := Refreshed(c.musicMeta, now),
       title := Truncate(s.host.title, MUSIC_TITLE_CAPACITY),
       playing := s.host.playing,
       connectionMeta := Refreshed(c.connectionMeta, now),
       revision := revision)
  }

  function CaptureSync(l: Layout, r: Record, s: State, revision: U64, now: U64): Record {
    Sealed(l, SyncCaptured(r.contents, s, revision, now))
  }

  /** The screen and the notification cursor; the list the cursor points into is not captured here. */
  function ApplicationCaptured(c: Contents, s: State, now: U64): Contents {
    c.(applicationMeta := Refreshed(c.applicationMeta, now),
       screen := ScreenNumber(s.screen),
       notifications := c.notifications.(active := s.host.notifications.active))
  }

  function CaptureApplication(l: Layout, r: Record, s: State, now: U64): Record {
    Sealed(l, ApplicationCaptured(r.contents, s, now))
  }

  function MarkedStale(c: Contents, now: U64): Contents {
    c.(weatherMeta := c.weatherMeta.(stale := true),
       activityMeta := c.activityMeta.(stale := true),
       notificationsMeta := c.notificationsMeta.(stale := true),
       musicMeta := c.musicMeta.(stale := true),
       connectionMeta := Refreshed(c.connectionMeta, now).(stale := true))
  }

  function MarkStale(l: Layout, r: Record, now: U64): Record {
    if r.contents.weatherMeta.version == 0 then r else Sealed(l, MarkedStale(r.contents, now))
  }

  function Later(m: Metadata, time: U64): U64 {
    if m.version > 0 && m.updatedAt > time then m.updatedAt else time
  }

  /** The host data after restoring: each domain comes back if it was ever captured. */
  function RestoredHost(c: Contents, h: HostData): HostData {
    var h1 :=
      if c.weatherMeta.version > 0
      then h.(temperature := c.temperature, condition := Truncate(c.condition, CONDITION_CAPACITY)) else h;
    var h2 := if c.activityMeta.version > 0 then h1.(steps := c.steps) else h1;
    var h3 := if c.notificationsMeta.version > 0 then h2.(notifications := c.notifications) else h2;
    if c.musicMeta.version > 0
    then h3.(title := Truncate(c.title, MUSIC_TITLE_CAPACITY), playing := c.playing) else h3
  }

  predicate HasHostData(c: Contents) {
    c.weatherMeta.version > 0 || c.activityMeta.version > 0 ||
    c.notificationsMeta.version > 0 || c.musicMeta.version > 0
  }

  function Restore(l: Layout, r: Record, s: State): (bool, State) {
    if !Valid(l, r) then (false, s)
    else
      var c := r.contents;
      var weatherTime := if c.weatherMeta.version > 0 then c.weatherMeta.updatedAt else 0;
      var time := Later(c.musicMeta, Later(c.notificationsMeta, Later(c.activityMeta, weatherTime)));
      (HasHostData(c) || c.applicationMeta.version > 0,
       s.(host := RestoredHost(c, s.host),
          screen := if c.applicationMeta.version > 0 then ScreenOf(c.screen) else s.screen,
          connection := Offline,
          stale := HasHostData(c),
          updatedAt := time))
  }

  class WatchCache {
    const layout: Layout
    var contents: Contents
    var checksum: U32

    function View(): Record
      reads this
    {
      Record(contents, checksum)
    }

    constructor (layout: Layout)
      ensures this.layout == layout && View() == Sealed(layout, Blank(layout))
    {
      this.layout := layout;
      contents := Blank(layout);
      checksum := Sum(layout, Blank(layout));
    }

    /** The storage load: any valid record replaces the initial one. */
    method Load(r: Record)
      requires Valid(layout, r)
      modifies this
      ensures View() == r
    {
      contents, checksum := r.contents, r.checksum;
    }

    method Seal()
      modifies this`checksum
      ensures View() == Sealed(layout, contents)
    {
      checksum := Sum(layout, contents);
    }

    method CaptureSynchronized(state: WatchState, revision: U64, now: U64)
      modifies this
      ensures View() == CaptureSync(layout, old(View()), old(state.View()), revision, now)
    {
      contents := contents.(weatherMeta := Refreshed(contents.weatherMeta, now),
                            temperature := state.host.temperature,
                            condition := Truncate(state.host.condition, CONDITION_CAPACITY));
      contents := contents.(activityMeta := Refreshed(contents.activityMeta, now), steps := state.host.steps);
      contents := contents.(notificationsMeta := Refreshed(contents.notificationsMeta, now),
                            notifications := state.host.notifications);
      contents := contents.(musicMeta := Refreshed(contents.musicMeta, now),
                            title := Truncate(state.host.title, MUSIC_TITLE_CAPACITY),
                            playing := state.host.playing);
      contents := contents.(connectionMeta := Refreshed(contents.connectionMeta, now), revision := revision);
      Seal();
    }

    method CaptureLocal(state: WatchState, now: U64)
      modifies this
      ensures View() == CaptureApplication(layout, old(View()), old(state.View()), now)
    {
      contents := contents.(applicationMeta := Refreshed(contents.applicationMeta, now),
                            screen := ScreenNumber(state.activeScreen));
      contents := contents.(notifications := contents.notifications.(active := state.host.notifications.active));
      Seal();
    }

    method MarkOffline(now: U64)
      modifies this
      ensures View() == MarkStale(layout, old(View()), now)
    {
      if contents.weatherMeta.version == 0 {
        return;
      }
      contents := contents.(weatherMeta := contents.weatherMeta.(stale := true));
      contents := contents.(activityMeta := contents.activityMeta.(stale := true));
      contents := contents.(notificationsMeta := contents.notificationsMeta.(stale := true));
      contents := contents.(musicMeta := contents.musicMeta.(stale := true));
      contents := contents.(connectionMeta := Refreshed(contents.connectionMeta, now).(stale := true));
      Seal();
    }

    /** Restoring overwrites the captured fields one domain at a time. */
    method RestoreInto(state: WatchState) returns (restored: bool)
      modifies state
      ensures (restored, state.View()) == Restore(layout, View(), old(state.View()))
    {
      if !Valid(layout, View()) {
        return false;
      }
      restored := false;
      var restoredHostData := false;
      var updatedAt: U64 := 0;
      if contents.weatherMeta.version > 0 {
        state.host := state.host.(temperature := contents.temperature,
                                  condition := Truncate(contents.condition, CONDITION_CAPACITY));
        updatedAt := contents.weatherMeta.updatedAt;
        restored, restoredHostData := true, true;
      }
      if contents.activityMeta.version > 0 {
        state.host := state.host.(steps := contents.steps);
        updatedAt := Later(contents.activityMeta, updatedAt);
        restored, restoredHostData := true, true;
      }
      if contents.notificationsMeta.version > 0 {
        state.host := state.host.(notifications := contents.notifications);
        updatedAt := Later(contents.notificationsMeta, updatedAt);
        restored, restoredHostData := true, true;
      }
      if contents.musicMeta.version > 0 {
        state.host := state.host.(title := Truncate(contents.title, MUSIC_TITLE_CAPACITY), playing := contents.playing);
        updatedAt := Later(contents.musicMeta, updatedAt);
        restored, restoredHostData := true, true;
      }
      if contents.applicationMeta.version > 0 {
        state.activeScreen := ScreenOf(contents.screen);
        restored := true;
      }
      state.connection := Offline;
      state.hostDataStale := restoredHostData;
      state.hostDataUpdatedAtMs := updatedAt;
    }
  }

  /** The four host domains are always captured together. */
  predicate SameVersions(c: Contents) {
    c.weatherMeta.version == c.activityMeta.version == c.notificationsMeta.version == c.musicMeta.version
  }

  /** Every operation keeps the four versions equal, so host data comes back all or none. */
  lemma HostDataAllOrNone(l: Layout, r: Record, s: State, revision: U64, now: U64)
    requires SameVersions(r.contents)
    ensures SameVersions(CaptureSync(l, r, s, revision, now).contents)
    ensures SameVersions(CaptureApplication(l, r, s, now).contents)
    ensures SameVersions(MarkStale(l, r, now).contents)
    ensures RestoredHost(r.contents, s.host) == s.host ||
            forall t: State :: RestoredHost(r.contents, s.host) == RestoredHost(r.contents, t.host)
  {}

  /** A capture of the application state is valid exactly when the cursor fits the list cached earlier. */
  lemma CaptureApplicationValidIff(l: Layout, r: Record, s: State, now: U64)
    requires HeaderOk(l, r.contents) && r.contents.notifications.stored <= NOTIFICATION_CAPACITY
    ensures Valid(l, CaptureApplication(l, r, s, now)) <==>
            s.host.notifications.active == 0 || s.host.notifications.active < r.contents.notifications.stored
  {}

  /** The other operations keep a record valid, whatever well-formed state they capture. */
  lemma OperationsKeepValid(l: Layout, r: Record, s: State, revision: U64, now: U64)
    requires Valid(l, r)
    ensures HostOk(s.host) ==> Valid(l, CaptureSync(l, r, s, revision, now))
    ensures Valid(l, MarkStale(l, r, now))
  {}

  /** Marking a valid record stale leaves everything that a power-on restores from it as it was. */
  lemma MarkedRestoresSame(l: Layout, r: Record, s: State, now: U64)
    requires Valid(l, r)
    ensures Restore(l, MarkStale(l, r, now), s) == Restore(l, r, s)
  {
    hide Sum;
  }

  /** What a capture writes: every domain as it is shown, current and under this time, and the revision. */
  lemma CaptureWrites(l: Layout, r: Record, s: State, revision: U64, now: U64)
    requires HostOk(s.host)
    ensures var c, before := CaptureSync(l, r, s, revision, now).contents, r.contents;
            && (c.temperature, c.condition, c.steps) == (s.host.temperature, s.host.condition, s.host.steps)
            && (c.title, c.playing, c.notifications) == (s.host.title, s.host.playing, s.host.notifications)
            && c.revision == revision
            && (forall m :: m in [c.weatherMeta, c.activityMeta, c.notificationsMeta, c.musicMeta, c.connectionMeta] ==>
                  m.updatedAt == now && !m.stale)
            && (c.screen, c.applicationMeta) == (before.screen, before.applicationMeta)
            && (c.magic, c.schema, c.size) == (before.magic, before.schema, before.size)
  {
    assert Truncate(s.host.condition, CONDITION_CAPACITY) == s.host.condition;
    assert Truncate(s.host.title, MUSIC_TITLE_CAPACITY) == s.host.title;
  }

  /** Marking keeps all data, its times, the screen and the revision; only flags and the link's own time change. */
  lemma MarkedKeeps(l: Layout, r: Record, now: U64)
    ensures var c, d := r.contents, MarkStale(l, r, now).contents;
            && (c.temperature, c.condition, c.steps, c.title, c.playing) ==
               (d.temperature, d.condition, d.steps, d.title, d.playing)
            && c.notifications == d.notifications
            && (c.screen, c.revision, c.applicationMeta) == (d.screen, d.revision, d.applicationMeta)
            && c.weatherMeta.updatedAt == d.weatherMeta.updatedAt
            && c.activityMeta.updatedAt == d.activityMeta.updatedAt
            && (c.notificationsMeta.updatedAt, c.musicMeta.updatedAt) ==
               (d.notificationsMeta.updatedAt, d.musicMeta.updatedAt)
            && (c.weatherMeta.version > 0 ==> d.connectionMeta.stale && d.connectionMeta.updatedAt == now)
  {}

  /** The time of restored data is the latest at which any restored domain was captured. */
  lemma RestoredTime(l: Layout, r: Record, s: State)
    requires Valid(l, r)
    ensures var c, time := r.contents, Restore(l, r, s).1.updatedAt;
            var metas := [c.weatherMeta, c.activityMeta, c.notificationsMeta, c.musicMeta];
            && (forall m :: m in metas && m.version > 0 ==> m.updatedAt <= time)
            && (time == 0 || exists m :: m in metas && m.version > 0 && m.updatedAt == time)
  {
    hide Sum, RestoredHost;
    var c, time := r.contents, Restore(l, r, s).1.updatedAt;
    var metas := [c.weatherMeta, c.activityMeta, c.notificationsMeta, c.musicMeta];
    assert c.weatherMeta in metas && c.activityMeta in metas && c.notificationsMeta in metas && c.musicMeta in metas;
  }

  /** The tests a record has to pass, with the source's own numbers. */
  lemma ValidIff(l: Layout, r: Record)
    ensures Valid(l, r) <==>
            && r.contents.magic == 0x434d4643 && r.contents.schema == 1 && r.contents.size == l.size
            && 0 <= r.contents.screen <= 4 && r.contents.notifications.stored <= 4
            && (r.contents.notifications.active == 0 ||
                r.contents.notifications.active < r.contents.notifications.stored)
            && r.checksum == Checksum.Fnv(2166136261, l.bytes(r.contents))
  {}

  /** Counters that have not wrapped around. */
  predicate NoWrap(c: Contents) {
    c.weatherMeta.version < U32_MAX && c.applicationMeta.version < U32_MAX
  }

  /**
   * Capturing a well-formed state and restoring it into any other one brings back all of the
   * host data and the screen, and marks them stale and offline.
   */
  lemma CaptureRestoreRoundTrip(l: Layout, r: Record, s: State, t: State, revision: U64, now: U64, later: U64)
    requires Valid(l, r) && SameVersions(r.contents) && NoWrap(r.contents) && HostOk(s.host)
    ensures var saved := CaptureApplication(l, CaptureSync(l, r, s, revision, now), s, later);
            Restore(l, saved, t) ==
            (true, t.(host := s.host, screen := s.screen, connection := Offline, stale := true, updatedAt := now))
  {
    var saved := CaptureApplication(l, CaptureSync(l, r, s, revision, now), s, later).contents;
    assert Truncate(s.host.condition, CONDITION_CAPACITY) == s.host.condition;
    assert Truncate(s.host.title, MUSIC_TITLE_CAPACITY) == s.host.title;
    assert saved.notifications == s.host.notifications;
  }

  /** The bytes that hold a record: laid out as its contents, with the checksum in its field. */
  predicate Holds(l: Layout, image: seq<byte>, r: Record) {
    && |image| >= Checksum.FIELD_END
    && l.bytes(r.contents) == Checksum.Blanked(image)
    && r.checksum == Checksum.Word(image[Checksum.FIELD..Checksum.FIELD_END])
  }

  /**
   * The validity check as it is made on the bytes of a record; `read` is what the fields read as,
   * for any bytes at all.
   */
  predicate Loads(l: Layout, read: seq<byte> -> Contents, image: seq<byte>) {
    && |image| >= Checksum.FIELD_END
    && HeaderOk(l, read(image)) && NotificationsOk(read(image).notifications) && Checksum.SealIntact(image)
  }

  /** On bytes that hold a record, it is the check on the record. */
  lemma LoadsIffValid(l: Layout, read: seq<byte> -> Contents, image: seq<byte>, r: Record)
    requires Holds(l, image, r) && read(image) == r.contents
    ensures Loads(l, read, image) <==> Valid(l, r)
  {}

  /**
   * The bytes of a valid record of which any one has changed, be it padding or to a value that
   * its field cannot hold, are refused, whatever they read as.
   */
  lemma CorruptedImageRefused(l: Layout, read: seq<byte> -> Contents, image: seq<byte>, r: Record, i: nat, b: byte)
    requires Valid(l, r) && Holds(l, image, r) && i < |image| && image[i] != b
    ensures !Loads(l, read, image[i := b])
  {
    assert Checksum.SealIntact(image);
    Checksum.OneByteCorruptionDetected(image, i, b);
  }
}
