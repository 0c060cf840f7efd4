/** The Activity schema (server/models/Activity.js): an append-only log entry
    owned by a user, with creation timestamps. */
module ActivityModel {
  import opened Common

  /** A clock reading formatted by `toLocaleString`; it is never empty. */
  type TimeLabel = s: string | s != "" witness "12:00 PM"

  /** The current time as a handler sees it: `Date.now()` and its
      formatted rendering. */
  datatype Clock = Clock(millis: nat, shown: TimeLabel)

  /** Icons the handlers attach to activities. */
  const ThriftIcon: string := "\U{1F4C8}"
  const ContributionIcon: string := "\U{1F4B0}"
  const MemberIcon: string := "\U{1F91D}"

  /** A stored activity; `createdAt` is the timestamp Mongoose adds. */
  datatype Activity = Activity(id: nat, userId: nat, action: string, time: string, icon: string, createdAt: nat)

  /** `action`, `time` and `icon` are required strings (a required string
      rejects ""); `userId` is required and always present in this model. */
  predicate ValidActivity(a: Activity) {
    a.action != "" && a.time != "" && a.icon != ""
  }

  /** The document `Activity.create` stores for a handler's event. */
  function NewActivity(id: nat, userId: nat, action: string, clock: Clock, icon: string): (a: Activity)
    ensures a.id == id && a.userId == userId && a.action == action && a.icon == icon
    ensures a.time == clock.shown && a.createdAt == clock.millis
    ensures action != "" && icon != "" ==> ValidActivity(a)
  {
    Activity(id, userId, action, clock.shown, icon, clock.millis)
  }
}
