/** Messages as both sides see them after the JSON parser: trees instead of text. */
module Wire {
  import opened Integers

  /**
   * `Str` holds the characters between the quotes, escapes not decoded; `Num` is a number
   * literal that is an integer, and `Fraction` any other number literal.
   */
  datatype Json =
    | Null
    | Bool(flag: bool)
    | Num(value: int)
    | Fraction
    | Str(text: string)
    | Arr(items: seq<Json>)
    | Obj(members: map<string, Json>)

  datatype Kind =
    | StateSet
    | StatePatch
    | ListInsert
    | ListRemove
    | ListUpdate
    | SyncResponse
    | CommandResult
    | HostCommand
    | OtherKind

  /** `raw` is the text of the payload object, `payload` its members. */
  datatype Message = Message(kind: Kind, id: U32, replyTo: Option<U32>, payload: map<string, Json>, raw: string)

  function Member(members: map<string, Json>, name: string): Option<Json> {
    if name in members then Some(members[name]) else None
  }

  /** A number token in the range of `uint64_t`. */
  function AsU64(j: Option<Json>): Option<U64> {
    if j.Some? && j.value.Num? && 0 <= j.value.value <= U64_MAX then Some(j.value.value) else None
  }
}
