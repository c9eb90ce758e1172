/**
 * Minecraft's CompoundTag as the block entities use it: one map from key to
 * a typed value, whose getters answer a default (the empty string, 0,
 * false, an empty compound) when the key is missing or holds another type.
 */
module Nbt {
  /** The value kinds the gate, the ticket machine and tickets store. */
  datatype Value = StrV(s: string) | LongV(n: int) | IntV(n: int) | BoolV(b: bool) | UuidV(u: string)
                 | IntsV(ints: map<string, int>)

  type Tag = map<string, Value>

  /** getString. */
  function GetString(t: Tag, k: string): string
  {
    if k in t && t[k].StrV? then t[k].s else ""
  }

  /** getLong and getInt: any numeric tag, a boolean being the byte 0 or 1. */
  function GetNumber(t: Tag, k: string): int
  {
    if k !in t then 0
    else match t[k]
      case LongV(n) => n
      case IntV(n) => n
      case BoolV(b) => if b then 1 else 0
      case _ => 0
  }

  /** getBoolean: a numeric tag other than 0. */
  function GetBool(t: Tag, k: string): bool
  {
    GetNumber(t, k) != 0
  }

  /** hasUUID. */
  predicate HasUuid(t: Tag, k: string)
  {
    k in t && t[k].UuidV?
  }

  /** getCompound of a compound of ints. */
  function GetInts(t: Tag, k: string): map<string, int>
  {
    if k in t && t[k].IntsV? then t[k].ints else map[]
  }
}
