module Options {
  datatype Option<T> = None | Some(value: T)
}

/** The place of a record (src/record/RID.h). */
module Rids {
  datatype Rid = Rid(block: int, slot: int)
}
