/** The kernel's side of one inotify instance: its marks and its unread events, with the
    system calls and the spontaneous steps that change them. */
module Kernel {
  import opened EventMask
  import opened EventRecords

  /** A mark on an inode. */
  datatype Mark = Mark(inode: nat, mask: bv32)

  /** A watch descriptor in use. */
  type Wd = x: int | 0 < x <= MAX_WD witness 1

  const MAX_WD: int := 0x7FFF_FFFF

  /** The mask of a mark after a call with `mask`: replaced, or extended when the caller asks
      for IN_MASK_ADD (a request that is not itself stored). */
  function NewMask(previous: bv32, mask: bv32): bv32 {
    if IsType(mask, IN_MASK_ADD) then previous | (mask & !IN_MASK_ADD) else mask
  }

  predicate IsIgnored(r: Record, wd: int) {
    r.wd == wd && IsType(r.mask, IN_IGNORED)
  }

  /** Some record announces that the kernel has dropped `wd`. */
  ghost predicate Announced(rs: seq<Record>, wd: int) {
    exists i :: 0 <= i < |rs| && IsIgnored(rs[i], wd)
  }

  lemma AnnouncedAppend(rs: seq<Record>, more: seq<Record>)
    ensures forall d :: Announced(rs, d) ==> Announced(rs + more, d)
    ensures forall d :: Announced(more, d) ==> Announced(rs + more, d)
  {
    forall d | Announced(rs, d)
      ensures Announced(rs + more, d)
    {
      var i :| 0 <= i < |rs| && IsIgnored(rs[i], d);
      assert IsIgnored((rs + more)[i], d);
    }
    forall d | Announced(more, d)
      ensures Announced(rs + more, d)
    {
      var i :| 0 <= i < |more| && IsIgnored(more[i], d);
      assert IsIgnored((rs + more)[|rs| + i], d);
    }
  }

  function IgnoredRecord(wd: Int32): (r: Record)
    ensures r.WellFormed() && IsIgnored(r, wd)
  {
    Record(wd, IN_IGNORED, 0, [], 0)
  }

  datatype Instance = Instance(
    inodeOf: map<string, nat>,  // what each path names at the moment
    marks: map<Wd, Mark>,  // by watch descriptor
    holder: map<nat, Wd>,  // the descriptor of each marked inode
    nextWd: Wd,
    unread: seq<Record>)
  {
    /** Descriptors are positive and never reused, and an inode has at most one mark. */
    ghost predicate Ok() {
      && (forall d :: d in marks ==> d < nextWd && marks[d].inode in holder && holder[marks[d].inode] == d)
      && (forall i :: i in holder ==> holder[i] in marks && marks[holder[i]].inode == i)
      && AllWellFormed(unread)
    }

    function Mask(wd: int): bv32 {
      if wd in marks then marks[wd].mask else 0
    }

    /** The descriptor that inotify_add_watch would answer for a path that exists. */
    function WdFor(path: string): Wd
      requires path in inodeOf
    {
      if inodeOf[path] in holder then holder[inodeOf[path]] else nextWd
    }

    /** inotify_add_watch can only succeed for a path that exists, and for a new mark only
        while there are descriptors left. */
    predicate CanAdd(path: string) {
      path in inodeOf && (inodeOf[path] in holder || nextWd < MAX_WD)
    }

    /** A successful inotify_add_watch: marks the inode that the path names, or changes the
        mask of its mark. */
    function Add(path: string, mask: bv32): (k: Instance)
      requires CanAdd(path)
      ensures Ok() ==> k.Ok()
    {
      var wd := WdFor(path);
      this.(marks := marks[wd := Mark(inodeOf[path], NewMask(Mask(wd), mask))],
            holder := holder[inodeOf[path] := wd],
            nextWd := if inodeOf[path] in holder then nextWd else nextWd + 1)
    }

    /** A successful inotify_rm_watch removes a mark and announces it; so does the kernel on
        its own when the file is gone or its file system unmounted. */
    function Remove(wd: Wd): (k: Instance)
      requires wd in marks
      ensures Ok() ==> k.Ok() && Announced(k.unread, wd)
      ensures forall d :: Announced(unread, d) ==> Announced(k.unread, d)
    {
      AnnouncedAppend(unread, [IgnoredRecord(wd)]);
      assert IsIgnored([IgnoredRecord(wd)][0], wd);
      this.(marks := marks - {wd}, holder := holder - {marks[wd].inode}, unread := unread + [IgnoredRecord(wd)])
    }

    /** Something happens to a marked inode, or the queue overflows (descriptor -1). A mark
        with IN_ONESHOT is dropped after its first event. */
    function Emit(r: Record): (k: Instance)
      requires r.WellFormed()
      ensures Ok() ==> k.Ok() && forall d :: d in marks && d !in k.marks ==> Announced(k.unread, d)
      ensures forall d :: Announced(unread, d) ==> Announced(k.unread, d)
    {
      AnnouncedAppend(unread, [r]);
      var told := this.(unread := unread + [r]);
      if r.wd in marks && IsType(marks[r.wd].mask, IN_ONESHOT) then told.Remove(r.wd) else told
    }

    /** Files are created, renamed and removed: paths may name other inodes from now on. */
    function Relink(paths: map<string, nat>): (k: Instance)
      ensures Ok() ==> k.Ok()
    {
      this.(inodeOf := paths)
    }
  }

  // ---------------------------------------------------------------- reading

  /** The bytes of some of the oldest records, as many as fit into `room` at most. */
  method Pack(queue: seq<Record>, room: nat) returns (count: nat, bytes: seq<Byte>)
    requires AllWellFormed(queue)
    ensures count <= |queue| && |bytes| <= room
    ensures AllWellFormed(queue[..count]) && bytes == EncodeAll(queue[..count])
  {
    count, bytes := 0, [];
    while count < |queue| && |bytes| + queue[count].Size() <= room
      invariant count <= |queue| && |bytes| <= room
      invariant AllWellFormed(queue[..count]) && bytes == EncodeAll(queue[..count])
    {
      EncodePrefix(queue, count);
      bytes := bytes + Encode(queue[count]);
      count := count + 1;
      if * {
        break;
      }
    }
  }

  /** read: moves records from the unread ones into the buffer. */
  method Read(k: Instance, buf: array<Byte>) returns (after: Instance, len: nat, ghost rs: seq<Record>)
    requires k.Ok()
    modifies buf
    ensures after.Ok() && AllWellFormed(rs)
    ensures k.unread == rs + after.unread && after == k.(unread := after.unread)
    ensures len <= buf.Length && buf[..len] == EncodeAll(rs)
  {
    var count, bytes := Pack(k.unread, buf.Length);
    len, rs := |bytes|, k.unread[..count];
    CopyOut(bytes, buf);
    after := k.(unread := k.unread[count..]);
  }

  method CopyOut(bytes: seq<Byte>, buf: array<Byte>)
    requires |bytes| <= buf.Length
    modifies buf
    ensures buf[..|bytes|] == bytes
  {
    forall i | 0 <= i < |bytes| {
      buf[i] := bytes[i];
    }
  }

  lemma EncodePrefix(rs: seq<Record>, k: nat)
    requires AllWellFormed(rs) && k < |rs|
    ensures AllWellFormed(rs[..k]) && AllWellFormed(rs[..k + 1])
    ensures EncodeAll(rs[..k + 1]) == EncodeAll(rs[..k]) + Encode(rs[k])
  {
    EncodeAllAppend(rs[..k], rs[k]);
    assert rs[..k + 1] == rs[..k] + [rs[k]];
  }

  lemma {:induction false} EncodeAllAppend(rs: seq<Record>, r: Record)
    requires AllWellFormed(rs) && r.WellFormed()
    ensures AllWellFormed(rs + [r]) && EncodeAll(rs + [r]) == EncodeAll(rs) + Encode(r)
  {
    var all := rs + [r];
    if rs == [] {
      assert all[0] == r && all[1..] == [];
      assert Encode(r) + [] == Encode(r) == [] + Encode(r);
    } else {
      EncodeAllAppend(rs[1..], r);
      assert all[0] == rs[0] && all[1..] == rs[1..] + [r];
      Associative(Encode(rs[0]), EncodeAll(rs[1..]), Encode(r));
    }
  }

  lemma Associative(a: seq<Byte>, b: seq<Byte>, c: seq<Byte>)
    ensures a + (b + c) == (a + b) + c
  {
  }
}
