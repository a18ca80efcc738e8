/** Event masks as text: the names of the flags, looking a name up, and dumping a mask as a
    comma-separated list of names. How the names are spelled is a parameter. */
module MaskNames {
  import opened EventMask

  datatype Name =
    | Access | Modify | Attrib | CloseWrite | CloseNowrite | Open | MovedFrom | MovedTo
    | Create | Delete | DeleteSelf | Unmount | QOverflow | Ignored | Close | Move
    | Isdir | Oneshot | AllEvents | DontFollow | Onlydir | MoveSelf

  /** The mask that belongs to a name. */
  function MaskByName(n: Name): bv32 {
    match n
    case Access => IN_ACCESS
    case Modify => IN_MODIFY
    case Attrib => IN_ATTRIB
    case CloseWrite => IN_CLOSE_WRITE
    case CloseNowrite => IN_CLOSE_NOWRITE
    case Open => IN_OPEN
    case MovedFrom => IN_MOVED_FROM
    case MovedTo => IN_MOVED_TO
    case Create => IN_CREATE
    case Delete => IN_DELETE
    case DeleteSelf => IN_DELETE_SELF
    case Unmount => IN_UNMOUNT
    case QOverflow => IN_Q_OVERFLOW
    case Ignored => IN_IGNORED
    case Close => IN_CLOSE
    case Move => IN_MOVE
    case Isdir => IN_ISDIR
    case Oneshot => IN_ONESHOT
    case AllEvents => IN_ALL_EVENTS
    case DontFollow => IN_DONT_FOLLOW
    case Onlydir => IN_ONLYDIR
    case MoveSelf => IN_MOVE_SELF
  }

  /** Names are told apart by their spelling, which is not empty and has no comma. */
  ghost predicate Proper(spell: Name -> string) {
    && (forall m, n :: m != n ==> spell(m) != spell(n))
    && forall n :: spell(n) != "" && ',' !in spell(n)
  }

  /** The mask that belongs to a spelled name; 0 when there is none. */
  ghost function GetMaskByName(text: string, spell: Name -> string): bv32 {
    if exists n :: spell(n) == text then
      var n :| spell(n) == text;
      MaskByName(n)
    else 0
  }

  lemma LookupUnderstands(spell: Name -> string)
    requires Proper(spell)
    ensures Understands(spell, s => GetMaskByName(s, spell))
  {
    forall n: Name
      ensures GetMaskByName(spell(n), spell) == MaskByName(n)
    {
      assert forall m :: spell(m) == spell(n) ==> m == n;
    }
  }

  // ------------------------------------------------------------- reading a dump back

  /** The index of the first comma, or the length when there is none. */
  function FirstComma(s: string): (k: nat)
    ensures k <= |s|
    ensures forall i :: 0 <= i < k ==> s[i] != ','
    ensures k < |s| ==> s[k] == ','
  {
    if s == "" || s[0] == ',' then 0 else 1 + FirstComma(s[1..])
  }

  /** Splits a text on commas and joins what `lookup` says of the parts. */
  function ReadBack(s: string, lookup: string -> bv32): bv32
    decreases |s|
  {
    var k := FirstComma(s);
    if k == |s| then lookup(s) else lookup(s[..k]) | ReadBack(s[k + 1..], lookup)
  }

  /** One more name, set off by a comma if there is something before it. */
  function Appended(before: string, name: string): string {
    (if before == "" then "" else before + ",") + name
  }

  /** The lookup knows every name as it is spelled, and no spelling has a comma. */
  ghost predicate Understands(spell: Name -> string, lookup: string -> bv32) {
    lookup("") == 0 && forall n :: ',' !in spell(n) && lookup(spell(n)) == MaskByName(n)
  }

  lemma {:induction false} ReadBackComma(s: string, name: string, lookup: string -> bv32)
    requires ',' !in name
    ensures ReadBack(s + "," + name, lookup) == ReadBack(s, lookup) | lookup(name)
    decreases |s|
  {
    var t := s + "," + name;
    var k := FirstComma(s);
    assert t[k] == ',' && FirstComma(t) == k;
    if k == |s| {
      assert t[..k] == s && t[k + 1..] == name;
      assert FirstComma(name) == |name|;
    } else {
      assert t[..k] == s[..k] && t[k + 1..] == s[k + 1..] + "," + name;
      ReadBackComma(s[k + 1..], name, lookup);
    }
  }

  /** Appending a name adds exactly its mask to what is read back. */
  lemma ReadBackAppended(before: string, name: string, lookup: string -> bv32)
    requires lookup("") == 0 && ',' !in name
    ensures ReadBack(Appended(before, name), lookup) == ReadBack(before, lookup) | lookup(name)
  {
    if before == "" {
      assert Appended(before, name) == name;
      assert FirstComma(name) == |name|;
    } else {
      ReadBackComma(before, name, lookup);
    }
  }

  // ------------------------------------------------------------- which names a dump has

  /** The names in the order in which a dump has them. */
  const EVENTS: seq<Name> := [AllEvents] + EACH_EVENT
  const EACH_EVENT: seq<Name> := ACCESSES + ENTRIES + SELF + MOVED + CLOSES + MOVES
  const ACCESSES: seq<Name> := [Access, Modify, Attrib]
  const ENTRIES: seq<Name> := [Create, Delete]
  const SELF: seq<Name> := [DeleteSelf, Open]
  const MOVED: seq<Name> := [Close, MoveSelf]
  const CLOSES: seq<Name> := [CloseWrite, CloseNowrite]
  const MOVES: seq<Name> := [Move, MovedFrom, MovedTo]
  const FAILURES: seq<Name> := [Unmount, QOverflow]
  const STATES: seq<Name> := [Ignored, Isdir]
  const OPTIONS: seq<Name> := [Oneshot, DontFollow, Onlydir]

  /** The name for all events replaces theirs, a move of the file itself hides the single close
      flags, and the name for both moves replaces theirs. */
  predicate Covered(value: bv32, n: Name) {
    match n
    case AllEvents | Unmount | QOverflow | Ignored | Isdir | Oneshot | DontFollow | Onlydir => false
    case CloseWrite | CloseNowrite => IsType(value, IN_ALL_EVENTS) || IsType(value, IN_MOVE_SELF)
    case MovedFrom | MovedTo => IsType(value, IN_ALL_EVENTS) || IsType(value, IN_MOVE)
    case _ => IsType(value, IN_ALL_EVENTS)
  }

  predicate IsDumped(value: bv32, n: Name) {
    IsType(value, MaskByName(n)) && !Covered(value, n)
  }

  function Dumped(value: bv32, names: seq<Name>): seq<Name> {
    if names == [] then []
    else
      var init, n := names[..|names| - 1], names[|names| - 1];
      Dumped(value, init) + if IsDumped(value, n) then [n] else []
  }

  function Joined(names: seq<Name>, spell: Name -> string): string {
    if names == [] then ""
    else Appended(Joined(names[..|names| - 1], spell), spell(names[|names| - 1]))
  }

  /** The text is made of those of the names that are to be dumped. */
  ghost predicate Lists(text: string, value: bv32, names: seq<Name>, spell: Name -> string) {
    text == Joined(Dumped(value, names), spell)
  }

  lemma ListsMore(before: string, after: string, dumped: bool, value: bv32, names: seq<Name>, n: Name,
                  spell: Name -> string)
    requires Lists(before, value, names, spell) && dumped == IsDumped(value, n)
    requires after == if dumped then Appended(before, spell(n)) else before
    ensures Lists(after, value, names + [n], spell)
  {
    assert (names + [n])[..|names|] == names;
    var shorter := Dumped(value, names);
    if dumped {
      assert (shorter + [n])[..|shorter|] == shorter;
    } else {
      assert shorter + [] == shorter;
    }
  }

  /** None of these names is covered by another one. */
  ghost predicate Uncovered(value: bv32, names: seq<Name>) {
    forall n :: n in names ==> !Covered(value, n)
  }

  /** One more name was printed, unless the value does not contain it. */
  ghost predicate Prints(before: string, after: string, value: bv32, n: Name, spell: Name -> string) {
    after == if IsType(value, MaskByName(n)) then Appended(before, spell(n)) else before
  }

  lemma ListsPrinted(before: string, after: string, value: bv32, names: seq<Name>, n: Name, spell: Name -> string)
    requires Lists(before, value, names, spell) && Prints(before, after, value, n, spell) && !Covered(value, n)
    ensures Lists(after, value, names + [n], spell)
  {
    ListsMore(before, after, IsType(value, MaskByName(n)), value, names, n, spell);
  }

  /** Text after text, one name after the other. */
  ghost predicate PrintsAll(texts: seq<string>, value: bv32, names: seq<Name>, spell: Name -> string) {
    |texts| == |names| + 1 && forall i :: 0 <= i < |names| ==> Prints(texts[i], texts[i + 1], value, names[i], spell)
  }

  lemma {:induction false} ListsAll(texts: seq<string>, value: bv32, names: seq<Name>, more: seq<Name>,
                                    spell: Name -> string)
    requires PrintsAll(texts, value, more, spell) && Lists(texts[0], value, names, spell) && Uncovered(value, more)
    ensures Lists(texts[|more|], value, names + more, spell)
  {
    if more == [] {
      assert names + more == names;
    } else {
      var k := |more| - 1;
      ListsAll(texts[..|more|], value, names, more[..k], spell);
      assert names + more[..k] + [more[k]] == names + more;
      ListsPrinted(texts[k], texts[k + 1], value, names + more[..k], more[k], spell);
    }
  }

  // ------------------------------------------------------------- dumping

  /** Every bit that has a name. */
  const KNOWN_FLAGS: bv32 := 0xC300_EFFF

  /** Exactly one of the two close flags, together with a move of the file itself: the flag is
      not printed. */
  predicate LosesClose(value: bv32) {
    IsType(value, IN_MOVE_SELF) && value & IN_CLOSE != 0 && !IsType(value, IN_CLOSE)
  }

  /** Prints one name if it is to be printed. */
  method Print(rStr: string, contained: bool, name: string, ghost mask: bv32, ghost lookup: string -> bv32)
    returns (r: string)
    requires lookup("") == 0 && ',' !in name && lookup(name) == mask
    ensures r == if contained then Appended(rStr, name) else rStr
    ensures ReadBack(r, lookup) == if contained then ReadBack(rStr, lookup) | mask else ReadBack(rStr, lookup)
  {
    if contained {
      ReadBackAppended(rStr, name, lookup);
      r := Appended(rStr, name);
    } else {
      r := rStr;
    }
  }

  /** The part of a value that its dump can show. */
  function Visible(value: bv32): bv32 {
    if LosesClose(value) then value & 0xFFFF_FFE7 else value
  }

  /** A single bit is contained as a whole exactly when it is set. */
  lemma SingleBit(value: bv32, flag: bv32)
    requires flag & (flag - 1) == 0
    ensures (IsType(value, flag) ==> value & flag == flag) && (!IsType(value, flag) ==> value & flag == 0)
  {
  }

  lemma SetBit(shown: bv32, flag: bv32, done: bv32)
    requires shown & flag == flag
    ensures (shown & done) | flag == shown & (done | flag)
  {
  }

  lemma ClearBit(shown: bv32, flag: bv32, done: bv32)
    requires shown & flag == 0
    ensures shown & done == shown & (done | flag)
  {
  }

  /** Printing a single bit shows that bit. */
  lemma PrintedBit(before: bv32, after: bv32, value: bv32, shown: bv32, flag: bv32, done: bv32)
    requires flag & (flag - 1) == 0 && shown & flag == value & flag
    requires before == shown & done
    requires after == if IsType(value, flag) then before | flag else before
    ensures after == shown & (done | flag)
  {
    SingleBit(value, flag);
    if IsType(value, flag) {
      SetBit(shown, flag, done);
    } else {
      ClearBit(shown, flag, done);
    }
  }

  /** The text shows the flags `done` of what is to be shown. */
  ghost predicate Shows(text: string, shown: bv32, done: bv32, lookup: string -> bv32) {
    ReadBack(text, lookup) == shown & done
  }

  /** Apart from the close flags (0x18), everything is shown. */
  predicate SameButClose(value: bv32, shown: bv32) {
    value & 0xFFFF_FFE7 == shown & 0xFFFF_FFE7
  }

  lemma SameBit(value: bv32, shown: bv32, flag: bv32)
    requires SameButClose(value, shown) && flag & 0x18 == 0
    ensures shown & flag == value & flag
  {
  }

  /** Prints the name of a single bit that is no close flag. */
  method PrintBit(rStr: string, value: bv32, flag: bv32, name: string,
                  ghost shown: bv32, ghost lookup: string -> bv32, ghost done: bv32)
    returns (r: string)
    requires lookup("") == 0 && ',' !in name && lookup(name) == flag
    requires flag & (flag - 1) == 0 && flag & 0x18 == 0
    requires SameButClose(value, shown) && Shows(rStr, shown, done, lookup)
    ensures r == if IsType(value, flag) then Appended(rStr, name) else rStr
    ensures Shows(r, shown, done | flag, lookup)
  {
    var contained := IsType(value, flag);
    r := Print(rStr, contained, name, flag, lookup);
    SameBit(value, shown, flag);
    PrintedBit(ReadBack(rStr, lookup), ReadBack(r, lookup), value, shown, flag, done);
  }

  lemma EventsUncovered(value: bv32)
    requires !IsType(value, IN_ALL_EVENTS)
    ensures Uncovered(value, ACCESSES) && Uncovered(value, ENTRIES) && Uncovered(value, SELF)
    ensures Uncovered(value, MOVED)
    ensures !IsType(value, IN_MOVE_SELF) ==> Uncovered(value, CLOSES)
    ensures !IsType(value, IN_MOVE) ==> Uncovered(value, MOVES)
    ensures !Covered(value, Move)
  {
  }

  lemma OthersUncovered(value: bv32)
    ensures Uncovered(value, FAILURES) && Uncovered(value, STATES) && Uncovered(value, OPTIONS)
    ensures !Covered(value, AllEvents)
  {
  }

  method PrintAccesses(rStr: string, value: bv32, spell: Name -> string,
                       ghost shown: bv32, ghost lookup: string -> bv32, ghost names: seq<Name>)
    returns (r: string)
    requires Understands(spell, lookup) && SameButClose(value, shown) && Shows(rStr, shown, 0, lookup)
    requires Lists(rStr, value, names, spell) && Uncovered(value, ACCESSES)
    ensures Shows(r, shown, 0x7, lookup) && Lists(r, value, names + ACCESSES, spell)
  {
    var one := PrintBit(rStr, value, IN_ACCESS, spell(Access), shown, lookup, 0);
    var two := PrintBit(one, value, IN_MODIFY, spell(Modify), shown, lookup, 0x1);
    r := PrintBit(two, value, IN_ATTRIB, spell(Attrib), shown, lookup, 0x3);
    ListsAll([rStr, one, two, r], value, names, ACCESSES, spell);
  }

  method PrintEntries(rStr: string, value: bv32, spell: Name -> string,
                      ghost shown: bv32, ghost lookup: string -> bv32, ghost names: seq<Name>)
    returns (r: string)
    requires Understands(spell, lookup) && SameButClose(value, shown) && Shows(rStr, shown, 0x7, lookup)
    requires Lists(rStr, value, names, spell) && Uncovered(value, ENTRIES)
    ensures Shows(r, shown, 0x307, lookup) && Lists(r, value, names + ENTRIES, spell)
  {
    var one := PrintBit(rStr, value, IN_CREATE, spell(Create), shown, lookup, 0x7);
    r := PrintBit(one, value, IN_DELETE, spell(Delete), shown, lookup, 0x107);
    ListsAll([rStr, one, r], value, names, ENTRIES, spell);
  }

  method PrintSelf(rStr: string, value: bv32, spell: Name -> string,
                   ghost shown: bv32, ghost lookup: string -> bv32, ghost names: seq<Name>)
    returns (r: string)
    requires Understands(spell, lookup) && SameButClose(value, shown) && Shows(rStr, shown, 0x307, lookup)
    requires Lists(rStr, value, names, spell) && Uncovered(value, SELF)
    ensures Shows(r, shown, 0x727, lookup) && Lists(r, value, names + SELF, spell)
  {
    var one := PrintBit(rStr, value, IN_DELETE_SELF, spell(DeleteSelf), shown, lookup, 0x307);
    r := PrintBit(one, value, IN_OPEN, spell(Open), shown, lookup, 0x707);
    ListsAll([rStr, one, r], value, names, SELF, spell);
  }

  /** What is shown before the two single close flags are looked at. */
  function MovedAndClosed(value: bv32): bv32 {
    if IsType(value, IN_CLOSE) then value & 0xF3F else value & 0xF27
  }

  lemma MovedBits(value: bv32, before: bv32, closed: bv32, after: bv32)
    requires before == Visible(value) & 0x727
    requires closed == if IsType(value, 0x18) then before | 0x18 else before
    requires after == if IsType(value, 0x800) then closed | 0x800 else closed
    ensures after == MovedAndClosed(value)
  {
  }

  method PrintMoved(rStr: string, value: bv32, spell: Name -> string, ghost lookup: string -> bv32,
                    ghost names: seq<Name>)
    returns (r: string)
    requires Understands(spell, lookup) && Shows(rStr, Visible(value), 0x727, lookup)
    requires Lists(rStr, value, names, spell) && Uncovered(value, MOVED)
    ensures ReadBack(r, lookup) == MovedAndClosed(value) && Lists(r, value, names + MOVED, spell)
  {
    var isClose, isMoveSelf := IsType(value, IN_CLOSE), IsType(value, IN_MOVE_SELF);
    var closed := Print(rStr, isClose, spell(Close), IN_CLOSE, lookup);
    r := Print(closed, isMoveSelf, spell(MoveSelf), IN_MOVE_SELF, lookup);
    MovedBits(value, ReadBack(rStr, lookup), ReadBack(closed, lookup), ReadBack(r, lookup));
    ListsAll([rStr, closed, r], value, names, MOVED, spell);
  }

  lemma CloseBits(value: bv32, isWrite: bool, isNowrite: bool, before: bv32, written: bv32, after: bv32)
    requires isWrite == IsType(value, 0x8) && isNowrite == IsType(value, 0x10) && !IsType(value, 0x800)
    requires before == MovedAndClosed(value)
    requires written == if isWrite then before | 0x8 else before
    requires after == if isNowrite then written | 0x10 else written
    ensures after == Visible(value) & 0xF3F
  {
  }

  lemma MovedCloses(value: bv32)
    requires IsType(value, 0x800)
    ensures MovedAndClosed(value) == Visible(value) & 0xF3F
  {
  }

  lemma ClosesHidden(before: string, value: bv32, names: seq<Name>, spell: Name -> string)
    requires IsType(value, IN_MOVE_SELF) && Lists(before, value, names, spell)
    ensures Lists(before, value, names + CLOSES, spell)
  {
    ListsMore(before, before, false, value, names, CloseWrite, spell);
    ListsMore(before, before, false, value, names + [CloseWrite], CloseNowrite, spell);
    assert names + [CloseWrite] + [CloseNowrite] == names + CLOSES;
  }

  /** Both close flags by their own names. */
  method PrintSingleCloses(rStr: string, value: bv32, spell: Name -> string, ghost lookup: string -> bv32,
                           ghost names: seq<Name>)
    returns (r: string, ghost written: bv32)
    requires Understands(spell, lookup) && Lists(rStr, value, names, spell) && Uncovered(value, CLOSES)
    ensures written == if IsType(value, IN_CLOSE_WRITE) then ReadBack(rStr, lookup) | IN_CLOSE_WRITE
                       else ReadBack(rStr, lookup)
    ensures ReadBack(r, lookup) == if IsType(value, IN_CLOSE_NOWRITE) then written | IN_CLOSE_NOWRITE else written
    ensures Lists(r, value, names + CLOSES, spell)
  {
    var one := Print(rStr, IsType(value, IN_CLOSE_WRITE), spell(CloseWrite), IN_CLOSE_WRITE, lookup);
    written := ReadBack(one, lookup);
    r := Print(one, IsType(value, IN_CLOSE_NOWRITE), spell(CloseNowrite), IN_CLOSE_NOWRITE, lookup);
    ListsAll([rStr, one, r], value, names, CLOSES, spell);
  }

  /** The single close flags are only looked at when the file itself was not moved. */
  method PrintCloses(rStr: string, value: bv32, spell: Name -> string, ghost lookup: string -> bv32,
                     ghost names: seq<Name>)
    returns (r: string)
    requires Understands(spell, lookup) && ReadBack(rStr, lookup) == MovedAndClosed(value)
    requires Lists(rStr, value, names, spell) && !IsType(value, IN_ALL_EVENTS)
    ensures Shows(r, Visible(value), 0xF3F, lookup) && Lists(r, value, names + CLOSES, spell)
  {
    if IsType(value, IN_MOVE_SELF) {
      MovedCloses(value);
      ClosesHidden(rStr, value, names, spell);
      r := rStr;
    } else {
      EventsUncovered(value);
      ghost var written;
      r, written := PrintSingleCloses(rStr, value, spell, lookup, names);
      CloseBits(value, IsType(value, IN_CLOSE_WRITE), IsType(value, IN_CLOSE_NOWRITE),
                ReadBack(rStr, lookup), written, ReadBack(r, lookup));
    }
  }

  lemma MovesHidden(before: string, value: bv32, names: seq<Name>, spell: Name -> string)
    requires IsType(value, IN_MOVE) && Lists(before, value, names + [Move], spell)
    ensures Lists(before, value, names + MOVES, spell)
  {
    ListsMore(before, before, false, value, names + [Move], MovedFrom, spell);
    ListsMore(before, before, false, value, names + [Move] + [MovedFrom], MovedTo, spell);
    assert names + [Move] + [MovedFrom] + [MovedTo] == names + MOVES;
  }

  method PrintMoves(rStr: string, value: bv32, spell: Name -> string,
                    ghost shown: bv32, ghost lookup: string -> bv32, ghost names: seq<Name>)
    returns (r: string)
    requires Understands(spell, lookup) && SameButClose(value, shown) && Shows(rStr, shown, 0xF3F, lookup)
    requires Lists(rStr, value, names, spell) && !IsType(value, IN_ALL_EVENTS)
    ensures Shows(r, shown, 0xFFF, lookup) && Lists(r, value, names + MOVES, spell)
  {
    EventsUncovered(value);
    var one := Print(rStr, IsType(value, IN_MOVE), spell(Move), IN_MOVE, lookup);
    ListsPrinted(rStr, one, value, names, Move, spell);
    if IsType(value, IN_MOVE) {
      assert (shown & 0xF3F) | 0xC0 == shown & 0xFFF;
      MovesHidden(one, value, names, spell);
      r := one;
    } else {
      var two := PrintBit(one, value, IN_MOVED_FROM, spell(MovedFrom), shown, lookup, 0xF3F);
      r := PrintBit(two, value, IN_MOVED_TO, spell(MovedTo), shown, lookup, 0xF7F);
      ListsAll([rStr, one, two, r], value, names, MOVES, spell);
    }
  }

  /** The flags that the kernel sets by itself: that it no longer watches, or lost events. */
  method PrintFailures(rStr: string, value: bv32, spell: Name -> string,
                       ghost shown: bv32, ghost lookup: string -> bv32, ghost names: seq<Name>)
    returns (r: string)
    requires Understands(spell, lookup) && SameButClose(value, shown) && Shows(rStr, shown, 0xFFF, lookup)
    requires Lists(rStr, value, names, spell) && Uncovered(value, FAILURES)
    ensures Shows(r, shown, 0x6FFF, lookup) && Lists(r, value, names + FAILURES, spell)
  {
    var one := PrintBit(rStr, value, IN_UNMOUNT, spell(Unmount), shown, lookup, 0xFFF);
    r := PrintBit(one, value, IN_Q_OVERFLOW, spell(QOverflow), shown, lookup, 0x2FFF);
    ListsAll([rStr, one, r], value, names, FAILURES, spell);
  }

  /** That a mark is gone, and that an event is about a directory. */
  method PrintStates(rStr: string, value: bv32, spell: Name -> string,
                     ghost shown: bv32, ghost lookup: string -> bv32, ghost names: seq<Name>)
    returns (r: string)
    requires Understands(spell, lookup) && SameButClose(value, shown) && Shows(rStr, shown, 0x6FFF, lookup)
    requires Lists(rStr, value, names, spell) && Uncovered(value, STATES)
    ensures Shows(r, shown, 0x4000_EFFF, lookup) && Lists(r, value, names + STATES, spell)
  {
    var one := PrintBit(rStr, value, IN_IGNORED, spell(Ignored), shown, lookup, 0x6FFF);
    r := PrintBit(one, value, IN_ISDIR, spell(Isdir), shown, lookup, 0xEFFF);
    ListsAll([rStr, one, r], value, names, STATES, spell);
  }

  /** The flags that a watch asks for. */
  method PrintOptions(rStr: string, value: bv32, spell: Name -> string,
                      ghost shown: bv32, ghost lookup: string -> bv32, ghost names: seq<Name>)
    returns (r: string)
    requires Understands(spell, lookup) && SameButClose(value, shown) && Shows(rStr, shown, 0x4000_EFFF, lookup)
    requires Lists(rStr, value, names, spell) && Uncovered(value, OPTIONS)
    ensures Shows(r, shown, 0xC300_EFFF, lookup) && Lists(r, value, names + OPTIONS, spell)
  {
    var one := PrintBit(rStr, value, IN_ONESHOT, spell(Oneshot), shown, lookup, 0x4000_EFFF);
    var two := PrintBit(one, value, IN_DONT_FOLLOW, spell(DontFollow), shown, lookup, 0xC000_EFFF);
    r := PrintBit(two, value, IN_ONLYDIR, spell(Onlydir), shown, lookup, 0xC200_EFFF);
    ListsAll([rStr, one, two, r], value, names, OPTIONS, spell);
  }

  lemma AllEventsShown(value: bv32)
    requires IsType(value, 0xFFF)
    ensures 0 | 0xFFF == Visible(value) & 0xFFF
  {
  }

  lemma ButCloseOfEither(value: bv32, shown: bv32)
    requires shown == value || shown == value & 0xFFFF_FFE7
    ensures SameButClose(value, shown)
  {
  }

  lemma VisibleButClose(value: bv32)
    ensures SameButClose(value, Visible(value))
  {
    ButCloseOfEither(value, Visible(value));
  }

  lemma EventsCovered(value: bv32)
    requires IsType(value, IN_ALL_EVENTS)
    ensures forall n :: n in EACH_EVENT ==> Covered(value, n)
  {
  }

  /** The name for all events is the only one of its kind. */
  lemma {:induction false} EventsHidden(text: string, value: bv32, names: seq<Name>, more: seq<Name>,
                                        spell: Name -> string)
    requires IsType(value, IN_ALL_EVENTS) && Lists(text, value, names, spell)
    requires forall n :: n in more ==> Covered(value, n)
    ensures Lists(text, value, names + more, spell)
  {
    if more == [] {
      assert names + more == names;
    } else {
      var init, n := more[..|more| - 1], more[|more| - 1];
      EventsHidden(text, value, names, init, spell);
      ListsMore(text, text, false, value, names + init, n, spell);
      assert names + init + [n] == names + more;
    }
  }

  lemma AllInOrder()
    ensures [AllEvents] + ACCESSES + ENTRIES + SELF + MOVED + CLOSES + MOVES == EVENTS
  {
  }

  /** The flags for events, each by its own name. */
  method PrintEachEvent(rStr: string, value: bv32, spell: Name -> string, ghost lookup: string -> bv32)
    returns (r: string)
    requires Understands(spell, lookup) && !IsType(value, IN_ALL_EVENTS)
    requires ReadBack(rStr, lookup) == 0 && Lists(rStr, value, [AllEvents], spell)
    ensures Shows(r, Visible(value), 0xFFF, lookup) && Lists(r, value, EVENTS, spell)
  {
    VisibleButClose(value);
    EventsUncovered(value);
    assert Shows(rStr, Visible(value), 0, lookup);
    ghost var names := [AllEvents];
    r := PrintAccesses(rStr, value, spell, Visible(value), lookup, names);
    r := PrintEntries(r, value, spell, Visible(value), lookup, names + ACCESSES);
    r := PrintSelf(r, value, spell, Visible(value), lookup, names + ACCESSES + ENTRIES);
    r := PrintMoved(r, value, spell, lookup, names + ACCESSES + ENTRIES + SELF);
    r := PrintCloses(r, value, spell, lookup, names + ACCESSES + ENTRIES + SELF + MOVED);
    r := PrintMoves(r, value, spell, Visible(value), lookup, names + ACCESSES + ENTRIES + SELF + MOVED + CLOSES);
    AllInOrder();
  }

  /** The flags for events: the one name for all of them, or each by its own. */
  method PrintEvents(value: bv32, spell: Name -> string, ghost lookup: string -> bv32) returns (r: string)
    requires Understands(spell, lookup)
    ensures Shows(r, Visible(value), 0xFFF, lookup) && Lists(r, value, EVENTS, spell)
  {
    OthersUncovered(value);
    r := Print("", IsType(value, IN_ALL_EVENTS), spell(AllEvents), IN_ALL_EVENTS, lookup);
    ListsPrinted("", r, value, [], AllEvents, spell);
    if IsType(value, IN_ALL_EVENTS) {
      AllEventsShown(value);
      EventsCovered(value);
      EventsHidden(r, value, [AllEvents], EACH_EVENT, spell);
    } else {
      assert [] + [AllEvents] == [AllEvents];
      r := PrintEachEvent(r, value, spell, lookup);
    }
  }

  /** Dumps a mask: exactly the names of what it contains that no other name covers, in their order
      and with commas between them. Splitting the text again and looking the parts up gives back
      every flag that has a name, but for a single close flag that a move of the file itself hides. */
  method DumpTypes(value: bv32, spell: Name -> string, ghost lookup: string -> bv32) returns (rStr: string)
    requires Understands(spell, lookup)
    ensures rStr == Joined(Dumped(value, EVENTS + FAILURES + STATES + OPTIONS), spell)
    ensures ReadBack(rStr, lookup) == Visible(value) & KNOWN_FLAGS
  {
    VisibleButClose(value);
    OthersUncovered(value);
    rStr := PrintEvents(value, spell, lookup);
    rStr := PrintFailures(rStr, value, spell, Visible(value), lookup, EVENTS);
    rStr := PrintStates(rStr, value, spell, Visible(value), lookup, EVENTS + FAILURES);
    rStr := PrintOptions(rStr, value, spell, Visible(value), lookup, EVENTS + FAILURES + STATES);
  }

  lemma {:induction false} DumpedExactly(value: bv32, names: seq<Name>, n: Name)
    ensures n in Dumped(value, names) <==> n in names && IsDumped(value, n)
  {
    if names != [] {
      DumpedExactly(value, names[..|names| - 1], n);
    }
  }

  /** A name is dumped exactly if the value has all its bits, unless it is the name of an event and
      the value has all events, of a close flag and the value has 0x800, or of one move and the
      value has both. */
  lemma IsDumpedExactly(value: bv32, n: Name)
    ensures IsDumped(value, n) <==>
            && value & MaskByName(n) == MaskByName(n)
            && (n != AllEvents && MaskByName(n) <= 0xFFF ==> value & 0xFFF != 0xFFF)
            && (MaskByName(n) == 0x8 || MaskByName(n) == 0x10 ==> value & 0x800 == 0)
            && (MaskByName(n) == 0x40 || MaskByName(n) == 0x80 ==> value & 0xC0 != 0xC0)
  {
    ContainsWhole(value, MaskByName(n));
    ContainsWhole(value, 0xFFF);
    ContainsWhole(value, 0x800);
    ContainsWhole(value, 0xC0);
  }

  /** What a dump shows: everything that has a name, without a close flag that comes alone with a
      move of the file itself. */
  lemma VisibleExactly(value: bv32)
    ensures value & 0x800 == 0 || value & 0x18 == 0 || value & 0x18 == 0x18 ==> Visible(value) == value
    ensures value & 0x800 != 0 && (value & 0x18 == 0x8 || value & 0x18 == 0x10) ==>
              Visible(value) == value & 0xFFFF_FFE7
  {
  }

  /** A dump shows everything that has a name exactly when the value does not pair a move of the
      file itself with a single close flag. */
  lemma NothingLostExactly(value: bv32)
    ensures Visible(value) & KNOWN_FLAGS == value & KNOWN_FLAGS <==>
            !(IsType(value, IN_MOVE_SELF) && IsType(value, IN_CLOSE_WRITE) != IsType(value, IN_CLOSE_NOWRITE))
  {
  }
}
