/** The records that a read from an inotify descriptor delivers: a 16-byte header (wd, mask,
    cookie, len; little-endian 32-bit words) followed by `len` bytes of NUL-padded name, as
    described in inotify(7). */
module EventRecords {

  type Byte = x: int | 0 <= x < 256
  type Int32 = x: int | -0x8000_0000 <= x < 0x8000_0000

  const HEADER_SIZE: nat := 16
  const WORD_LIMIT: nat := 0x1_0000_0000

  /** One event as the kernel writes it. `padding` counts the NUL bytes after the name. */
  datatype Record = Record(wd: Int32, mask: bv32, cookie: bv32, name: seq<Byte>, padding: nat) {

    /** A name has no NUL inside and at least one behind it, and its length fits the header. */
    predicate WellFormed() {
      && 0 !in name
      && (name != [] ==> padding > 0)
      && |name| + padding < WORD_LIMIT
    }

    function Size(): nat {
      HEADER_SIZE + |name| + padding
    }
  }

  // ---------------------------------------------------------------- words

  function Word(b: seq<Byte>, at: nat): (n: nat)
    requires at + 4 <= |b|
    ensures n < WORD_LIMIT
  {
    b[at] as int + 0x100 * (b[at + 1] as int) + 0x1_0000 * (b[at + 2] as int) + 0x100_0000 * (b[at + 3] as int)
  }

  function WordBytes(n: nat): (b: seq<Byte>)
    requires n < WORD_LIMIT
    ensures |b| == 4
  {
    [n % 0x100, n / 0x100 % 0x100, n / 0x100 / 0x100 % 0x100, n / 0x100 / 0x100 / 0x100]
  }

  lemma SliceOfSlice(b: seq<Byte>, at: nat, size: nat, lo: nat, hi: nat)
    requires at + size <= |b| && lo <= hi <= size
    ensures b[at..at + size][lo..hi] == b[at + lo..at + hi]
  {
    var whole := b[at..at + size];
    var inner, direct := whole[lo..hi], b[at + lo..at + hi];
    forall k | 0 <= k < hi - lo
      ensures inner[k] == direct[k]
    {
      assert inner[k] == whole[lo + k] == b[at + lo + k];
    }
  }

  lemma WordSum(n: nat)
    ensures n % 0x100 + 0x100 * (n / 0x100 % 0x100) + 0x1_0000 * (n / 0x100 / 0x100 % 0x100)
            + 0x100_0000 * (n / 0x100 / 0x100 / 0x100) == n
  {
    var q1 := n / 0x100;
    var q2 := q1 / 0x100;
    assert q1 == 0x100 * q2 + q1 % 0x100;
    assert q2 == 0x100 * (q2 / 0x100) + q2 % 0x100;
  }

  lemma WordRoundTrip(b: seq<Byte>, at: nat, n: nat)
    requires n < WORD_LIMIT && at + 4 <= |b| && b[at..at + 4] == WordBytes(n)
    ensures Word(b, at) == n
  {
    WordSum(n);
    var w := b[at..at + 4];
    assert b[at] == w[0] && b[at + 1] == w[1] && b[at + 2] == w[2] && b[at + 3] == w[3];
  }

  /** A 32-bit word read as a signed descriptor, and back. */
  function Signed(n: nat): Int32
    requires n < WORD_LIMIT
  {
    if n < 0x8000_0000 then n else n - WORD_LIMIT
  }

  function Unsigned(x: Int32): (n: nat)
    ensures n < WORD_LIMIT
  {
    if x >= 0 then x else x + WORD_LIMIT
  }

  // ---------------------------------------------------------------- encoding

  function Zeros(n: nat): (b: seq<Byte>)
    ensures |b| == n && forall i :: 0 <= i < n ==> b[i] == 0
  {
    seq(n, _ => 0)
  }

  function MaskBytes(m: bv32): (b: seq<Byte>)
    ensures |b| == 4
  {
    WordBytes(m as int)
  }

  function Header(wd: Int32, mask: bv32, cookie: bv32, len: nat): (b: seq<Byte>)
    requires len < WORD_LIMIT
    ensures |b| == HEADER_SIZE
  {
    WordBytes(Unsigned(wd)) + MaskBytes(mask) + MaskBytes(cookie) + WordBytes(len)
  }

  function Encode(r: Record): (b: seq<Byte>)
    requires r.WellFormed()
    ensures |b| == r.Size()
  {
    Header(r.wd, r.mask, r.cookie, |r.name| + r.padding) + (r.name + Zeros(r.padding))
  }

  ghost predicate AllWellFormed(rs: seq<Record>) {
    forall i :: 0 <= i < |rs| ==> rs[i].WellFormed()
  }

  function EncodeAll(rs: seq<Record>): seq<Byte>
    requires AllWellFormed(rs)
  {
    if rs == [] then [] else Encode(rs[0]) + EncodeAll(rs[1..])
  }

  // ---------------------------------------------------------------- decoding one record

  predicate HasNul(b: seq<Byte>, at: nat, end: nat)
    requires end <= |b|
    decreases end - at
  {
    at < end && (b[at] == 0 || HasNul(b, at + 1, end))
  }

  /** The C string that starts at `at` and has its NUL before `end`. */
  function CString(b: seq<Byte>, at: nat, end: nat): seq<Byte>
    requires end <= |b| && HasNul(b, at, end)
    decreases end - at
  {
    if b[at] == 0 then [] else [b[at]] + CString(b, at + 1, end)
  }

  function LengthAt(b: seq<Byte>, at: nat): nat
    requires at + HEADER_SIZE <= |b|
  {
    Word(b, at + 12)
  }

  function MaskAt(b: seq<Byte>, at: nat): bv32
    requires at + 4 <= |b|
  {
    Word(b, at) as bv32
  }

  /** What the library takes from the record at `at`; the name is only looked at when the
      header announces one. */
  datatype Event = Event(wd: Int32, mask: bv32, cookie: bv32, name: seq<Byte>)

  /** There is a whole record at `at`, and its name, if it has one, ends inside it. */
  predicate Complete(b: seq<Byte>, at: nat) {
    && at + HEADER_SIZE <= |b| && at + HEADER_SIZE + LengthAt(b, at) <= |b|
    && (LengthAt(b, at) > 0 ==> HasNul(b, at + HEADER_SIZE, at + HEADER_SIZE + LengthAt(b, at)))
  }

  function EventAt(b: seq<Byte>, at: nat): Event
    requires Complete(b, at)
  {
    Event(Signed(Word(b, at)), MaskAt(b, at + 4), MaskAt(b, at + 8),
          if LengthAt(b, at) > 0 then CString(b, at + HEADER_SIZE, at + HEADER_SIZE + LengthAt(b, at)) else [])
  }

  /** What decoding should recover. */
  function Meaning(r: Record): Event {
    Event(r.wd, r.mask, r.cookie, r.name)
  }

  lemma {:induction false} CStringStopsAtNul(b: seq<Byte>, at: nat, end: nat, name: seq<Byte>)
    requires at + |name| < end <= |b| && b[at..at + |name|] == name && 0 !in name && b[at + |name|] == 0
    ensures HasNul(b, at, end) && CString(b, at, end) == name
    decreases |name|
  {
    if name != [] {
      assert b[at] == name[0];
      assert b[at + 1..at + |name|] == name[1..];
      CStringStopsAtNul(b, at + 1, end, name[1..]);
    }
  }

  lemma MaskRoundTrip(b: seq<Byte>, at: nat, m: bv32)
    requires at + 4 <= |b| && b[at..at + 4] == MaskBytes(m)
    ensures MaskAt(b, at) == m
  {
    WordRoundTrip(b, at, m as int);
    assert (m as int) as bv32 == m;
  }

  lemma HeaderWords(b: seq<Byte>, at: nat, w0: seq<Byte>, w1: seq<Byte>, w2: seq<Byte>, w3: seq<Byte>)
    requires |w0| == |w1| == |w2| == |w3| == 4 && at + HEADER_SIZE <= |b|
    requires b[at..at + HEADER_SIZE] == w0 + w1 + w2 + w3
    ensures b[at..at + 4] == w0 && b[at + 4..at + 8] == w1
    ensures b[at + 8..at + 12] == w2 && b[at + 12..at + HEADER_SIZE] == w3
  {
    SliceOfSlice(b, at, HEADER_SIZE, 0, 4);
    SliceOfSlice(b, at, HEADER_SIZE, 4, 8);
    SliceOfSlice(b, at, HEADER_SIZE, 8, 12);
    SliceOfSlice(b, at, HEADER_SIZE, 12, 16);
  }

  lemma HeaderRoundTrip(b: seq<Byte>, at: nat, wd: Int32, mask: bv32, cookie: bv32, len: nat)
    requires len < WORD_LIMIT && at + HEADER_SIZE <= |b|
    requires b[at..at + HEADER_SIZE] == Header(wd, mask, cookie, len)
    ensures Signed(Word(b, at)) == wd && MaskAt(b, at + 4) == mask
    ensures MaskAt(b, at + 8) == cookie && LengthAt(b, at) == len
  {
    HeaderWords(b, at, WordBytes(Unsigned(wd)), MaskBytes(mask), MaskBytes(cookie), WordBytes(len));
    WordRoundTrip(b, at, Unsigned(wd));
    MaskRoundTrip(b, at + 4, mask);
    MaskRoundTrip(b, at + 8, cookie);
    WordRoundTrip(b, at + 12, len);
  }

  lemma NameRoundTrip(b: seq<Byte>, at: nat, name: seq<Byte>, padding: nat)
    requires 0 !in name && padding > 0 && at + |name| + padding <= |b|
    requires b[at..at + |name| + padding] == name + Zeros(padding)
    ensures HasNul(b, at, at + |name| + padding) && CString(b, at, at + |name| + padding) == name
  {
    var body := name + Zeros(padding);
    SliceOfSlice(b, at, |body|, 0, |name|);
    assert body[0..|name|] == name;
    assert b[at + |name|] == body[|name|] == 0;
    CStringStopsAtNul(b, at, at + |body|, name);
  }

  /** Where header and name of an encoded record lie. */
  lemma EncodedParts(b: seq<Byte>, at: nat, r: Record)
    requires r.WellFormed() && at + r.Size() <= |b| && b[at..at + r.Size()] == Encode(r)
    ensures b[at..at + HEADER_SIZE] == Header(r.wd, r.mask, r.cookie, |r.name| + r.padding)
    ensures b[at + HEADER_SIZE..at + r.Size()] == r.name + Zeros(r.padding)
  {
    var header, body := Header(r.wd, r.mask, r.cookie, |r.name| + r.padding), r.name + Zeros(r.padding);
    SliceOfSlice(b, at, r.Size(), 0, HEADER_SIZE);
    SliceOfSlice(b, at, r.Size(), HEADER_SIZE, r.Size());
    assert (header + body)[0..HEADER_SIZE] == header && (header + body)[HEADER_SIZE..r.Size()] == body;
  }

  /** Decoding undoes encoding, one record: wherever it starts and whatever surrounds it. */
  lemma DecodeEncode(b: seq<Byte>, at: nat, r: Record)
    requires r.WellFormed() && at + r.Size() <= |b| && b[at..at + r.Size()] == Encode(r)
    ensures LengthAt(b, at) == |r.name| + r.padding && Complete(b, at)
    ensures EventAt(b, at) == Meaning(r)
  {
    EncodedParts(b, at, r);
    HeaderRoundTrip(b, at, r.wd, r.mask, r.cookie, |r.name| + r.padding);
    if |r.name| + r.padding > 0 {
      NameRoundTrip(b, at + HEADER_SIZE, r.name, r.padding);
    }
  }

  // ---------------------------------------------------------------- decoding a buffer

  /** The layout of a filled buffer: every record, and every name in its record, ends inside it. */
  predicate Aligned(b: seq<Byte>, at: nat)
    requires at <= |b|
    decreases |b| - at
  {
    at == |b| || (Complete(b, at) && Aligned(b, at + HEADER_SIZE + LengthAt(b, at)))
  }

  /** The events of a buffer, walked header by header. */
  function DecodeFrom(b: seq<Byte>, at: nat): seq<Event>
    requires at <= |b| && Aligned(b, at)
    decreases |b| - at
  {
    if at == |b| then [] else [EventAt(b, at)] + DecodeFrom(b, at + HEADER_SIZE + LengthAt(b, at))
  }

  function Meanings(rs: seq<Record>): (es: seq<Event>)
    ensures |es| == |rs|
  {
    if rs == [] then [] else [Meaning(rs[0])] + Meanings(rs[1..])
  }

  /** The bytes of a record and the bytes behind it. */
  lemma SplitFirst(b: seq<Byte>, at: nat, rs: seq<Record>)
    requires AllWellFormed(rs) && rs != [] && at <= |b| && b[at..] == EncodeAll(rs)
    ensures at + rs[0].Size() <= |b|
    ensures b[at..at + rs[0].Size()] == Encode(rs[0]) && b[at + rs[0].Size()..] == EncodeAll(rs[1..])
  {
    var n := rs[0].Size();
    var tail := b[at..];
    assert tail[..n] == Encode(rs[0]) && tail[n..] == EncodeAll(rs[1..]);
    assert b[at..at + n] == tail[..n] && b[at + n..] == tail[n..];
  }

  lemma WalkOne(b: seq<Byte>, at: nat, next: nat)
    requires Complete(b, at) && next == at + HEADER_SIZE + LengthAt(b, at) && Aligned(b, next)
    ensures Aligned(b, at) && DecodeFrom(b, at) == [EventAt(b, at)] + DecodeFrom(b, next)
  {
  }

  /** Decoding undoes encoding, whole buffers: from any record boundary the walk stays aligned
      to the very end and recovers every remaining record, in order. */
  lemma {:induction false} DecodeAll(b: seq<Byte>, at: nat, rs: seq<Record>)
    requires AllWellFormed(rs) && at <= |b| && b[at..] == EncodeAll(rs)
    ensures Aligned(b, at) && DecodeFrom(b, at) == Meanings(rs)
    decreases |rs|
  {
    if rs == [] {
      assert |b[at..]| == 0;
    } else {
      var next := at + rs[0].Size();
      SplitFirst(b, at, rs);
      DecodeEncode(b, at, rs[0]);
      DecodeAll(b, next, rs[1..]);
      WalkOne(b, at, next);
    }
  }
}
