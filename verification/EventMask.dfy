/** The flag values of inotify(7) and the subset test on them. */
module EventMask {

  const IN_ACCESS: bv32 := 0x1
  const IN_MODIFY: bv32 := 0x2
  const IN_ATTRIB: bv32 := 0x4
  const IN_CLOSE_WRITE: bv32 := 0x8
  const IN_CLOSE_NOWRITE: bv32 := 0x10
  const IN_OPEN: bv32 := 0x20
  const IN_MOVED_FROM: bv32 := 0x40
  const IN_MOVED_TO: bv32 := 0x80
  const IN_CREATE: bv32 := 0x100
  const IN_DELETE: bv32 := 0x200
  const IN_DELETE_SELF: bv32 := 0x400
  const IN_MOVE_SELF: bv32 := 0x800
  const IN_UNMOUNT: bv32 := 0x2000
  const IN_Q_OVERFLOW: bv32 := 0x4000
  const IN_IGNORED: bv32 := 0x8000
  const IN_ONLYDIR: bv32 := 0x0100_0000
  const IN_DONT_FOLLOW: bv32 := 0x0200_0000
  const IN_MASK_ADD: bv32 := 0x2000_0000
  const IN_ISDIR: bv32 := 0x4000_0000
  const IN_ONESHOT: bv32 := 0x8000_0000
  const IN_CLOSE: bv32 := 0x18
  const IN_MOVE: bv32 := 0xC0
  const IN_ALL_EVENTS: bv32 := 0xFFF

  /** The value contains the whole of a non-empty type. */
  predicate IsType(value: bv32, kind: bv32) {
    (value & kind) != 0 && ((!value) & kind) == 0
  }

  /** It contains a type exactly if it has all of its bits. */
  lemma ContainsWhole(value: bv32, kind: bv32)
    ensures IsType(value, kind) <==> kind != 0 && value & kind == kind
  {
    NothingMissing(value, kind);
    WholeThere(value, kind);
  }

  lemma NothingMissing(value: bv32, kind: bv32)
    ensures !value & kind == 0 ==> value & kind == kind
  {
  }

  lemma WholeThere(value: bv32, kind: bv32)
    ensures value & kind == kind ==> !value & kind == 0
  {
  }

  /** A mask `m` without the directory flag and that flag tell whether the mask is a given flag with
      the directory flag or without it. */
  predicate TellsDirectory(mask: bv32, m: bv32, isDir: bool, flag: bv32) {
    && (m == flag && isDir <==> mask == flag | IN_ISDIR)
    && (m == flag && !isDir <==> mask == flag)
  }

  lemma DirectoryOrNot(mask: bv32)
    ensures var m, isDir := mask & !IN_ISDIR, mask & IN_ISDIR != 0;
            && TellsDirectory(mask, m, isDir, IN_CREATE) && TellsDirectory(mask, m, isDir, IN_DELETE)
            && TellsDirectory(mask, m, isDir, IN_MODIFY) && TellsDirectory(mask, m, isDir, IN_CLOSE_WRITE)
            && TellsDirectory(mask, m, isDir, IN_CLOSE_NOWRITE)
  {
  }
}
