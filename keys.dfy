/** What the key handlers read from a keyboard event's target element. */
module Keys {

  /** `event.target.tagName` and `event.target.type`. */
  datatype KeyTarget = KeyTarget(tagName: string, inputType: string)
}
