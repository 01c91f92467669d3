module Wrappers {
  datatype Option<+T> = None | Some(value: T)
}

/** The ranges of the machine's unsigned and signed words. */
module Words {
  const TWO_32: nat := 0x1_0000_0000
  const TWO_64: nat := 0x1_0000_0000_0000_0000
  const INT_MAX: nat := 0x7FFF_FFFF
}

/** The thread status of base/src/ThreadDefine.h. */
module ThreadDefine {
  datatype Status = IS_SLEEP | IS_RUNNING | IS_WAITING | IS_EXITED
}
