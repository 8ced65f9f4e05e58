/**
 The icon and colour of a notification (`getNotificationIcon`,
 `getNotificationColor`): two fixed tables over the four notification types,
 each falling back to the entry of the "info" type.
 */
module Notifications {
  import opened JsObject

  /** The icon of each notification type. */
  const IconTable: map<string, string> := map[
    "success" := "check-circle",
    "error" := "exclamation-circle",
    "warning" := "exclamation-triangle",
    "info" := "info-circle"
  ]

  /** The background colour of each notification type. */
  const ColorTable: map<string, string> := map[
    "success" := "#48bb78",
    "error" := "#f56565",
    "warning" := "#ed8936",
    "info" := "#4299e1"
  ]

  /** The Font Awesome icon name for a notification of type `kind`: the
      type's own icon when known, the info icon for any other type. */
  function NotificationIcon(kind: string): (r: string)
    requires OrdinaryKey(kind)
    ensures kind in IconTable ==> r == IconTable[kind]
    ensures kind !in IconTable ==> r == IconTable["info"]
    ensures r in IconTable.Values
  {
    LookupOr(IconTable, kind, "info-circle")
  }

  /** The background colour for a notification of type `kind`: the type's own
      colour when known, the info colour for any other type. */
  function NotificationColor(kind: string): (r: string)
    requires OrdinaryKey(kind)
    ensures kind in ColorTable ==> r == ColorTable[kind]
    ensures kind !in ColorTable ==> r == ColorTable["info"]
    ensures r in ColorTable.Values
  {
    LookupOr(ColorTable, kind, "#4299e1")
  }

  /** Both tables know the same four notification types. */
  lemma KnownTypes()
    ensures IconTable.Keys == ColorTable.Keys == {"success", "error", "warning", "info"}
  {
  }

  /** The four types are told apart by icon and by colour. */
  lemma DistinctLooks(a: string, b: string)
    requires OrdinaryKey(a) && OrdinaryKey(b)
    requires a in IconTable && b in IconTable
    ensures NotificationIcon(a) == NotificationIcon(b) <==> a == b
    ensures NotificationColor(a) == NotificationColor(b) <==> a == b
  {
  }

  /** Any other type looks exactly like an info notification. */
  lemma UnknownLooksLikeInfo(kind: string)
    requires OrdinaryKey(kind) && kind !in IconTable
    ensures NotificationIcon(kind) == NotificationIcon("info")
    ensures NotificationColor(kind) == NotificationColor("info")
  {
  }
}
