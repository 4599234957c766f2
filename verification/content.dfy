/**
 * The event-type table of the tracking-event endpoint: each tracker event becomes a
 * notification title, body and category.
 */
module Content {
  import opened Values

  /** A validated tracking event: `deviceId` and `type` are present and non-empty. */
  datatype TrackingEvent = TrackingEvent(
    deviceId: string,
    eventType: string,
    name: Option<string>,
    attributes: map<string, string>)

  /** The event types the table names, and every other type by its text. */
  datatype Kind =
    | DeviceOnline | DeviceOffline | DeviceMoving | DeviceStopped
    | IgnitionOn | IgnitionOff | GeofenceEnter | GeofenceExit | Alarm
    | Unlisted(text: string)

  /** The `type` string of each kind. */
  function TypeName(k: Kind): string {
    match k
    case DeviceOnline => "deviceOnline"
    case DeviceOffline => "deviceOffline"
    case DeviceMoving => "deviceMoving"
    case DeviceStopped => "deviceStopped"
    case IgnitionOn => "ignitionOn"
    case IgnitionOff => "ignitionOff"
    case GeofenceEnter => "geofenceEnter"
    case GeofenceExit => "geofenceExit"
    case Alarm => "alarm"
    case Unlisted(text) => text
  }

  /** The `switch (event.type)`: which case a type string selects. */
  function KindOf(eventType: string): (k: Kind)
    ensures TypeName(k) == eventType
  {
    if eventType == "deviceOnline" then DeviceOnline
    else if eventType == "deviceOffline" then DeviceOffline
    else if eventType == "deviceMoving" then DeviceMoving
    else if eventType == "deviceStopped" then DeviceStopped
    else if eventType == "ignitionOn" then IgnitionOn
    else if eventType == "ignitionOff" then IgnitionOff
    else if eventType == "geofenceEnter" then GeofenceEnter
    else if eventType == "geofenceExit" then GeofenceExit
    else if eventType == "alarm" then Alarm
    else Unlisted(eventType)
  }

  /** A kind is well formed when `Unlisted` does not carry the name of a listed type. */
  predicate WellFormed(k: Kind) {
    !k.Unlisted? || KindOf(k.text).Unlisted?
  }

  /** Every well-formed kind is recovered from its type string. */
  lemma KindOfTypeName(k: Kind)
    requires WellFormed(k)
    ensures KindOf(TypeName(k)) == k
  {
  }

  /** A rendered notification; `category` is the `type` field of the message data. */
  datatype Notification = Notification(title: string, body: string, category: string)

  /** `event.name || "Dispositivo " + event.deviceId`. */
  function Base(ev: TrackingEvent): (b: string)
    ensures |b| > 0
    ensures Truthy(ev.name) ==> b == ev.name.value
    ensures !Truthy(ev.name) ==> |b| == 12 + |ev.deviceId| && b[..12] == "Dispositivo " && b[12..] == ev.deviceId
  {
    if Truthy(ev.name) then ev.name.value else "Dispositivo " + ev.deviceId
  }

  /** `event.attributes?.[key] || fallback`. */
  function Attribute(ev: TrackingEvent, key: string, fallback: string): (v: string)
    ensures key in ev.attributes && ev.attributes[key] != "" ==> v == ev.attributes[key]
    ensures v != fallback ==> key in ev.attributes && v == ev.attributes[key] && v != ""
    ensures v == "" ==> fallback == ""
  {
    if key in ev.attributes && ev.attributes[key] != "" then ev.attributes[key] else fallback
  }

  /** The fixed title and category of each kind. */
  function Heading(k: Kind): (h: (string, string))
    ensures |h.0| > 0 && |h.1| > 0
    ensures h.0 == "Notificação" <==> k.Unlisted?
    ensures h.1 == "other" <==> k.Unlisted?
    ensures h.1 == "status" <==> k in {DeviceOnline, DeviceOffline}
    ensures h.1 == "movement" <==> k in {DeviceMoving, DeviceStopped}
    ensures h.1 == "ignition" <==> k in {IgnitionOn, IgnitionOff}
    ensures h.1 == "geofence" <==> k in {GeofenceEnter, GeofenceExit}
    ensures h.1 == "alarm" <==> k == Alarm
    ensures h.0 == "Cerca Virtual" <==> h.1 == "geofence"
  {
    match k
    case DeviceOnline => ("Dispositivo Online", "status")
    case DeviceOffline => ("Dispositivo Offline", "status")
    case DeviceMoving => ("Movimento Detectado", "movement")
    case DeviceStopped => ("Dispositivo Parado", "movement")
    case IgnitionOn => ("Ignição Ligada", "ignition")
    case IgnitionOff => ("Ignição Desligada", "ignition")
    case GeofenceEnter => ("Cerca Virtual", "geofence")
    case GeofenceExit => ("Cerca Virtual", "geofence")
    case Alarm => ("Alarme", "alarm")
    case Unlisted(_) => ("Notificação", "other")
  }

  /** What follows the base name in the body. */
  function Tail(ev: TrackingEvent, k: Kind): (t: string)
    ensures |t| > 0 && (t[0] == ' ' || t[0] == ':')
    ensures k.Unlisted? ==> t == ": " + k.text
    ensures k == Alarm ==> |t| > 2 && t[..2] == ": " && t[2..] == Attribute(ev, "alarm", "Alarme ativado")
  {
    match k
    case DeviceOnline => " está online"
    case DeviceOffline => " está offline"
    case DeviceMoving => " está se movendo"
    case DeviceStopped => " está parado"
    case IgnitionOn => ": ignição ligada"
    case IgnitionOff => ": ignição desligada"
    case GeofenceEnter => " entrou em " + Attribute(ev, "geofenceName", "")
    case GeofenceExit => " saiu de " + Attribute(ev, "geofenceName", "")
    case Alarm => ": " + Attribute(ev, "alarm", "Alarme ativado")
    case Unlisted(text) => ": " + text
  }

  /**
   * The notification for an event. Every body starts with the base name; title and
   * category depend on the type alone, and the generic "Notificação"/"other" pair
   * is chosen exactly for the types the table does not list.
   */
  function Render(ev: TrackingEvent): (n: Notification)
    ensures |Base(ev)| <= |n.body| && n.body[..|Base(ev)|] == Base(ev)
    ensures n.category == "other" <==> KindOf(ev.eventType).Unlisted?
    ensures n.title == "Notificação" <==> KindOf(ev.eventType).Unlisted?
  {
    var k := KindOf(ev.eventType);
    var body := Base(ev) + Tail(ev, k);
    assert body[..|Base(ev)|] == Base(ev);
    Notification(Heading(k).0, body, Heading(k).1)
  }

  /** Title and category are a function of the type: name, device and attributes only shape the body. */
  lemma HeadingDependsOnTypeOnly(a: TrackingEvent, b: TrackingEvent)
    requires a.eventType == b.eventType
    ensures Render(a).title == Render(b).title && Render(a).category == Render(b).category
  {
  }

  /** An unlisted type is shown verbatim after the base name. */
  lemma UnlistedBody(ev: TrackingEvent)
    requires KindOf(ev.eventType).Unlisted?
    ensures Render(ev) == Notification("Notificação", Base(ev) + ": " + ev.eventType, "other")
  {
  }

  /** A geofence event without a geofence name ends its body at the preposition. */
  lemma GeofenceWithoutName(ev: TrackingEvent)
    requires ev.eventType in {"geofenceEnter", "geofenceExit"}
    requires "geofenceName" !in ev.attributes || ev.attributes["geofenceName"] == ""
    ensures Render(ev).body == Base(ev) + (if ev.eventType == "geofenceEnter" then " entrou em " else " saiu de ")
  {
  }

  /** An alarm without a reason reads "Alarme ativado". */
  lemma AlarmWithoutReason(ev: TrackingEvent)
    requires ev.eventType == "alarm"
    requires "alarm" !in ev.attributes || ev.attributes["alarm"] == ""
    ensures Render(ev).body == Base(ev) + ": Alarme ativado"
  {
    assert KindOf(ev.eventType) == Alarm;
    assert Attribute(ev, "alarm", "Alarme ativado") == "Alarme ativado";
    assert Tail(ev, Alarm) == ": Alarme ativado";
  }

  /** An unnamed device is called by its id. */
  lemma UnnamedDevice(ev: TrackingEvent)
    requires !Truthy(ev.name)
    ensures Render(ev).body[..|"Dispositivo " + ev.deviceId|] == "Dispositivo " + ev.deviceId
  {
  }
}
