/** The flat tag-to-value FIX message the JSON codec decodes into and encodes from. */
module Slr {

  /** A field value: a string, or a repeating group, one entry per repetition. */
  datatype FixFieldValue =
    | String(s: string)
    | Group(entries: seq<Entry>)

  /** One repetition of a group: its fields, keyed by tag. */
  datatype Entry = Entry(fields: map<nat, FixFieldValue>)

  /** A message: its fields keyed by tag; setting a field replaces any earlier value. */
  type Message = map<nat, FixFieldValue>
}
