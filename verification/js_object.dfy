/**
 Property lookup on the plain object literals that script.js uses as
 constant tables, followed by the `|| fallback` idiom.
 */
module JsObject {

  /** Names a plain object literal inherits from `Object.prototype`: looking one
      of them up yields an inherited function rather than `undefined`. */
  const InheritedKeys: set<string> :=
    { "constructor", "__proto__", "__defineGetter__", "__defineSetter__",
      "__lookupGetter__", "__lookupSetter__", "hasOwnProperty", "isPrototypeOf",
      "propertyIsEnumerable", "toString", "toLocaleString", "valueOf" }

  /** A key whose lookup is decided by the table's own entries alone. */
  predicate OrdinaryKey(key: string) {
    key !in InheritedKeys
  }

  /** `table[key] || fallback`: the fallback is taken when the property is
      missing (`undefined`) or holds a falsy value, which for a string is "". */
  function LookupOr(table: map<string, string>, key: string, fallback: string): (r: string)
    requires OrdinaryKey(key)
    ensures key in table && table[key] != "" ==> r == table[key]
    ensures key !in table || table[key] == "" ==> r == fallback
  {
    if key in table && table[key] != "" then table[key] else fallback
  }
}
