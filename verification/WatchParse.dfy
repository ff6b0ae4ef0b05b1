/** How the watch reads the payloads of snapshots and mutations. */
module WatchParse {
  import opened Integers
  import opened WatchModel
  import opened Wire

  /** One parsed mutation value, by the path it is for. */
  datatype Change =
    | Temperature(temperature: I16)
    | Condition(text: string)
    | Title(text: string)
    | Playing(flag: bool)
    | Steps(steps: U32)
    | NotificationSet(notifications: NotificationList)

  datatype Mutation = Mutation(revision: U64, change: Change)

  const TEXT_CAPACITY := 96
  const PATH_CAPACITY := 40

  /** A string token that fits the destination and has no escape in it. */
  function CopyString(j: Json, capacity: nat): Option<string> {
    if j.Str? && |j.text| < capacity && '\\' !in j.text then Some(j.text) else None
  }

  function AsI16(j: Json): Option<I16> {
    if j.Num? && -0x8000 <= j.value <= 0x7fff then Some(j.value) else None
  }

  function AsU32(j: Json): Option<U32> {
    if j.Num? && 0 <= j.value <= U32_MAX then Some(j.value) else None
  }

  /** A member that is absent, or a string. */
  predicate OptionalText(members: map<string, Json>, name: string) {
    name !in members || members[name].Str?
  }

  function TextOr(members: map<string, Json>, name: string, capacity: nat): string
    requires OptionalText(members, name) && capacity > 0
  {
    if name in members then Truncate(members[name].text, capacity) else ""
  }

  predicate ItemOk(item: Json) {
    item.Obj? && OptionalText(item.members, "id") && OptionalText(item.members, "title") &&
    OptionalText(item.members, "body")
  }

  function ItemValue(item: Json): Notification
    requires ItemOk(item)
  {
    Notification(TextOr(item.members, "title", TITLE_CAPACITY), TextOr(item.members, "body", BODY_CAPACITY))
  }

  /** The first characters of a text. */
  function FirstChars(text: string, count: nat): string {
    if |text| <= count then text else text[..count]
  }

  /**
   * An item is an object whose id, title and body are texts or absent. Its title shows with at
   * most 47 characters and its body with at most 95; what is absent shows as nothing.
   */
  lemma ItemRead(item: Json)
    ensures ItemOk(item) <==>
            item.Obj? && forall name :: name in ["id", "title", "body"] && name in item.members ==>
                           item.members[name].Str?
    ensures ItemOk(item) ==>
              && ItemValue(item).title ==
                 (if "title" in item.members then FirstChars(item.members["title"].text, 47) else "")
              && ItemValue(item).body ==
                 (if "body" in item.members then FirstChars(item.members["body"].text, 95) else "")
  {
    assert forall name :: name in ["id", "title", "body"] <==> name == "id" || name == "title" || name == "body";
  }

  predicate ListOk(j: Json) {
    j.Arr? && forall i :: 0 <= i < |j.items| ==> ItemOk(j.items[i])
  }

  /** The list read from an array: saturating total, the first four entries, the cursor at the start. */
  function ListValue(j: Json): (n: NotificationList)
    requires ListOk(j)
    ensures NotificationsOk(n) && n.active == 0 && |n.entries| == 4
    ensures n.total == Min(|j.items|, 0xffff) && n.stored == Min(|j.items|, 4)
    ensures forall i :: 0 <= i < 4 ==> n.entries[i] == if i < |j.items| then ItemValue(j.items[i]) else BLANK
  {
    var stored := Min(|j.items|, 4);
    NotificationList(Min(|j.items|, U16_MAX), stored, 0,
                     seq(4, i requires 0 <= i < 4 => if i < stored then ItemValue(j.items[i]) else BLANK))
  }

  /** The loop over the array; it fails at the first item of the wrong shape. */
  method ParseNotifications(j: Json) returns (r: Option<NotificationList>)
    ensures r == if ListOk(j) then Some(ListValue(j)) else None
    ensures r.Some? ==>
              forall i :: 0 <= i < Min(|j.items|, 4) ==>
                && r.value.entries[i].title ==
                   (if "title" in j.items[i].members then FirstChars(j.items[i].members["title"].text, 47) else "")
                && r.value.entries[i].body ==
                   (if "body" in j.items[i].members then FirstChars(j.items[i].members["body"].text, 95) else "")
  {
    if !j.Arr? {
      return None;
    }
    var list := NO_NOTIFICATIONS;
    for k := 0 to |j.items|
      invariant forall i :: 0 <= i < k ==> ItemOk(j.items[i])
      invariant list.total == Min(k, U16_MAX) && list.stored == Min(k, 4) && list.active == 0
      invariant |list.entries| == 4
      invariant forall i :: 0 <= i < 4 ==> list.entries[i] == if i < k then ItemValue(j.items[i]) else BLANK
    {
      var item := j.items[k];
      if !ItemOk(item) {
        return None;
      }
      if list.stored < NOTIFICATION_CAPACITY {
        list := list.(entries := list.entries[list.stored := ItemValue(item)], stored := list.stored + 1);
      }
      if list.total < U16_MAX {
        list := list.(total := list.total + 1);
      }
    }
    assert list == ListValue(j);
    forall i | 0 <= i < Min(|j.items|, 4)
      ensures list.entries[i] == ItemValue(j.items[i])
      ensures list.entries[i].title ==
              (if "title" in j.items[i].members then FirstChars(j.items[i].members["title"].text, 47) else "")
      ensures list.entries[i].body ==
              (if "body" in j.items[i].members then FirstChars(j.items[i].members["body"].text, 95) else "")
    {
      ItemRead(j.items[i]);
    }
    return Some(list);
  }

  function ParseWeather(j: Json, h: HostData): Option<HostData> {
    if !j.Obj? then None
    else
      var temperature := if "temperature" in j.members then AsI16(j.members["temperature"]) else Some(h.temperature);
      var condition :=
        if "condition" in j.members then CopyString(j.members["condition"], CONDITION_CAPACITY) else Some(h.condition);
      if temperature.None? || condition.None? then None
      else Some(h.(temperature := temperature.value, condition := condition.value))
  }

  function ParseMusic(j: Json, h: HostData): Option<HostData> {
    if !j.Obj? then None
    else
      var title := if "title" in j.members then CopyString(j.members["title"], MUSIC_TITLE_CAPACITY) else Some(h.title);
      if title.None? || ("playing" in j.members && !j.members["playing"].Bool?) then None
      else
        var playing := if "playing" in j.members then j.members["playing"].flag else h.playing;
        Some(h.(title := title.value, playing := playing))
  }

  /** The host-owned fields of a snapshot, over the reset values; absent members keep those. */
  function ParseHost(members: map<string, Json>): Option<HostData> {
    var weather := if "weather" in members then ParseWeather(members["weather"], RESET_HOST) else Some(RESET_HOST);
    if weather.None? then None else
    var music := if "music" in members then ParseMusic(members["music"], weather.value) else weather;
    if music.None? then None else
    var steps := if "steps" in members then AsU32(members["steps"]) else Some(music.value.steps);
    if steps.None? || ("notifications" in members && !ListOk(members["notifications"])) then None
    else
      var notifications :=
        if "notifications" in members then ListValue(members["notifications"]) else music.value.notifications;
      Some(music.value.(steps := steps.value, notifications := notifications))
  }

  function ParseSnapshot(payload: map<string, Json>): Option<(U64, HostData)> {
    var revision := AsU64(Member(payload, "revision"));
    if revision.None? || "state" !in payload || !payload["state"].Obj? then None
    else
      var host := ParseHost(payload["state"].members);
      if host.None? then None else Some((revision.value, host.value))
  }

  /** The value of a mutation, when the path is one the watch supports and the value fits it. */
  function ParseChange(path: string, value: Json, isSet: bool): Option<Change> {
    if path == "weather.temperature" then
      var t := AsI16(value);
      if t.Some? then Some(Temperature(t.value)) else None
    else if path == "weather.condition" then
      var text := CopyString(value, TEXT_CAPACITY);
      if text.Some? then Some(Condition(text.value)) else None
    else if path == "music.title" then
      var text := CopyString(value, TEXT_CAPACITY);
      if text.Some? then Some(Title(text.value)) else None
    else if path == "music.playing" then
      if value.Bool? then Some(Playing(value.flag)) else None
    else if path == "steps" then
      var n := AsU32(value);
      if n.Some? then Some(Steps(n.value)) else None
    else if path == "notifications" && isSet then
      if ListOk(value) then Some(NotificationSet(ListValue(value))) else None
    else None
  }

  function ParseMutation(m: Message): Option<Mutation> {
    if "path" !in m.payload || "value" !in m.payload then None
    else
      var revision := AsU64(Member(m.payload, "revision"));
      var path := CopyString(m.payload["path"], PATH_CAPACITY);
      if revision.None? || path.None? then None
      else
        var change := ParseChange(path.value, m.payload["value"], m.kind == StateSet);
        if change.None? then None else Some(Mutation(revision.value, change.value))
  }

  // ---------- what is accepted, said of the members themselves ----------

  predicate WholeIn(members: map<string, Json>, name: string, low: int, high: int) {
    name in members && members[name].Num? && low <= members[name].value <= high
  }

  /** A text shorter than the capacity, without an escape. */
  predicate PlainText(members: map<string, Json>, name: string, capacity: nat) {
    name in members && members[name].Str? && |members[name].text| < capacity && '\\' !in members[name].text
  }

  predicate Flag(members: map<string, Json>, name: string) {
    name in members && members[name].Bool?
  }

  predicate Items(members: map<string, Json>, name: string) {
    name in members && ListOk(members[name])
  }

  /** The six paths, each with the values it takes; the list only in a set. */
  predicate WellFormedFor(path: string, payload: map<string, Json>, isSet: bool) {
    || (path == "weather.temperature" && WholeIn(payload, "value", -0x8000, 0x7fff))
    || (path == "weather.condition" && PlainText(payload, "value", 96))
    || (path == "music.title" && PlainText(payload, "value", 96))
    || (path == "music.playing" && Flag(payload, "value"))
    || (path == "steps" && WholeIn(payload, "value", 0, 0xffff_ffff))
    || (path == "notifications" && isSet && Items(payload, "value"))
  }

  predicate MutationWellFormed(m: Message) {
    && WholeIn(m.payload, "revision", 0, 0xffff_ffff_ffff_ffff)
    && "path" in m.payload && m.payload["path"].Str?
    && WellFormedFor(m.payload["path"].text, m.payload, m.kind == StateSet)
  }

  /** What a value at a path changes. */
  predicate ChangeReads(path: string, value: Json, c: Change) {
    && (path == "weather.temperature" ==> value.Num? && c.Temperature? && c.temperature == value.value)
    && (path == "weather.condition" ==> value.Str? && c == Condition(value.text))
    && (path == "music.title" ==> value.Str? && c == Title(value.text))
    && (path == "music.playing" ==> value.Bool? && c == Playing(value.flag))
    && (path == "steps" ==> value.Num? && c.Steps? && c.steps == value.value)
    && (path == "notifications" ==> ListOk(value) && c == NotificationSet(ListValue(value)))
  }

  lemma ChangeReadIff(path: string, payload: map<string, Json>, isSet: bool)
    requires "value" in payload
    ensures ParseChange(path, payload["value"], isSet).Some? <==> WellFormedFor(path, payload, isSet)
    ensures ParseChange(path, payload["value"], isSet).Some? ==>
              ChangeReads(path, payload["value"], ParseChange(path, payload["value"], isSet).value)
  {
    hide ListOk, ListValue;
  }

  /** None of the six paths has an escape or is too long. */
  lemma PathsPlain(path: string)
    requires path in ["weather.temperature", "weather.condition", "music.title", "music.playing", "steps",
                      "notifications"]
    ensures |path| < PATH_CAPACITY && '\\' !in path
  {}

  /**
   * A mutation is read exactly when its revision is a 64-bit number, its path is one of the six
   * and its value fits that path; then this is its revision and its change.
   */
  lemma MutationReadIff(m: Message)
    ensures ParseMutation(m).Some? <==> MutationWellFormed(m)
    ensures ParseMutation(m).Some? ==>
              && ParseMutation(m).value.revision == m.payload["revision"].value
              && ChangeReads(m.payload["path"].text, m.payload["value"], ParseMutation(m).value.change)
  {
    if "path" in m.payload && m.payload["path"].Str? && "value" in m.payload {
      var path := m.payload["path"].text;
      ChangeReadIff(path, m.payload, m.kind == StateSet);
      if WellFormedFor(path, m.payload, m.kind == StateSet) {
        PathsPlain(path);
      }
      hide ParseChange, WellFormedFor, ChangeReads;
    }
  }

  predicate WeatherWellFormed(j: Json) {
    && j.Obj?
    && ("temperature" in j.members ==> WholeIn(j.members, "temperature", -0x8000, 0x7fff))
    && ("condition" in j.members ==> PlainText(j.members, "condition", 32))
  }

  predicate MusicWellFormed(j: Json) {
    && j.Obj?
    && ("title" in j.members ==> PlainText(j.members, "title", 64))
    && ("playing" in j.members ==> Flag(j.members, "playing"))
  }

  /** Every section and member the watch looks at may be absent. */
  predicate StateWellFormed(members: map<string, Json>) {
    && ("weather" in members ==> WeatherWellFormed(members["weather"]))
    && ("music" in members ==> MusicWellFormed(members["music"]))
    && ("steps" in members ==> WholeIn(members, "steps", 0, 0xffff_ffff))
    && ("notifications" in members ==> Items(members, "notifications"))
  }

  predicate SnapshotWellFormed(payload: map<string, Json>) {
    && WholeIn(payload, "revision", 0, 0xffff_ffff_ffff_ffff)
    && "state" in payload && payload["state"].Obj? && StateWellFormed(payload["state"].members)
  }

  /** The members of a section; none when it is absent. */
  function SectionOf(members: map<string, Json>, name: string): map<string, Json> {
    if name in members && members[name].Obj? then members[name].members else map[]
  }

  /** What is absent is as after a reset. */
  predicate StateReads(members: map<string, Json>, h: HostData)
    requires StateWellFormed(members)
  {
    var weather, music := SectionOf(members, "weather"), SectionOf(members, "music");
    && h.temperature == (if "temperature" in weather then weather["temperature"].value else 0)
    && h.condition == (if "condition" in weather then weather["condition"].text else "Unavailable")
    && h.title == (if "title" in music then music["title"].text else "Nothing playing")
    && h.playing == (if "playing" in music then music["playing"].flag else false)
    && h.steps == (if "steps" in members then members["steps"].value else 0)
    && h.notifications == (if "notifications" in members then ListValue(members["notifications"])
                           else NotificationList(0, 0, 0, [BLANK, BLANK, BLANK, BLANK]))
  }

  lemma StateReadIff(members: map<string, Json>)
    ensures ParseHost(members).Some? <==> StateWellFormed(members)
    ensures ParseHost(members).Some? ==> StateReads(members, ParseHost(members).value)
  {
    hide ListOk, ListValue;
  }

  /** A snapshot is read exactly when its revision and what there is of its state have the right types and fit. */
  lemma SnapshotReadIff(payload: map<string, Json>)
    ensures ParseSnapshot(payload).Some? <==> SnapshotWellFormed(payload)
    ensures ParseSnapshot(payload).Some? ==>
              && ParseSnapshot(payload).value.0 == payload["revision"].value
              && StateReads(payload["state"].members, ParseSnapshot(payload).value.1)
  {
    if "state" in payload && payload["state"].Obj? {
      StateReadIff(payload["state"].members);
    }
    hide ParseHost, StateReads, StateWellFormed;
  }

  /** Applying a mutation; the two texts are cut to the capacity of their fields. */
  function Applied(h: HostData, c: Change): HostData {
    match c
    case Temperature(t) => h.(temperature := t)
    case Condition(text) => h.(condition := Truncate(text, CONDITION_CAPACITY))
    case Title(text) => h.(title := Truncate(text, MUSIC_TITLE_CAPACITY))
    case Playing(flag) => h.(playing := flag)
    case Steps(n) => h.(steps := n)
    case NotificationSet(list) => h.(notifications := list)
  }

  predicate ChangeOk(c: Change) {
    c.NotificationSet? ==> NotificationsOk(c.notifications)
  }

  /** Everything the watch parses fits its fields, and applying it keeps the host data well formed. */
  lemma ParsedDataOk(m: Message, h: HostData)
    ensures ParseSnapshot(m.payload).Some? ==> HostOk(ParseSnapshot(m.payload).value.1)
    ensures ParseMutation(m).Some? && HostOk(h) ==> HostOk(Applied(h, ParseMutation(m).value.change))
    ensures ParseMutation(m).Some? ==> ChangeOk(ParseMutation(m).value.change)
  {
    if ParseSnapshot(m.payload).Some? {
      HostParsedOk(m.payload["state"].members);
    }
    hide ParseHost, AsI16, AsU32, ListOk, ListValue;
  }

  lemma HostParsedOk(members: map<string, Json>)
    ensures ParseHost(members).Some? ==> HostOk(ParseHost(members).value)
  {
    hide ListOk, ListValue, AsI16, AsU32;
  }
}
