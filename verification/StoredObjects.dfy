/** The two tables of stored monitors and scrapers, whose entries are changed in place. */
module StoredObjects {
  import opened Options
  import opened Messages
  import opened Lifecycle
  import opened Termination

  class StoredObject {
    const className: string
    const serial: nat
    /** Where the object is stored. */
    ghost const key: Key
    var process: Option<Pid>
    var endpoint: Option<string>
    var addTimer: Option<Timer>
    var isBeingAdded: bool
    var isBeingStopped: bool
    var confirmAdded: bool

    constructor (k: Key, serial: nat)
      ensures key == k && Fields() == Stored(k.name, None, None, None, false, false, false, serial)
    {
      className, this.serial, key := k.name, serial, k;
      process, endpoint, addTimer := None, None, None;
      isBeingAdded, isBeingStopped, confirmAdded := false, false, false;
    }

    method Become(f: Stored)
      requires f.className == className && f.serial == serial
      modifies this
      ensures Fields() == f
    {
      process, endpoint, addTimer := f.process, f.endpoint, f.addTimer;
      isBeingAdded, isBeingStopped, confirmAdded := f.isBeingAdded, f.isBeingStopped, f.confirmAdded;
    }

    function Fields(): Stored
      reads this
    {
      Stored(className, process, endpoint, addTimer, isBeingAdded, isBeingStopped, confirmAdded, serial)
    }
  }

  /** The objects of a table are stored under their own keys, and `stored` shows their fields. */
  ghost predicate TableLinked(table: map<string, StoredObject>, kind: Kind, stored: map<Key, Stored>,
                              repr: set<StoredObject>)
    reads repr
  {
    && (forall name :: name in table <==> Key(kind, name) in stored)
    && (forall name :: name in table ==>
          && table[name] in repr && table[name].key == Key(kind, name)
          && table[name].Fields() == stored[Key(kind, name)])
  }

  class StoredTables {
    var monitors: map<string, StoredObject>
    var scrapers: map<string, StoredObject>
    /** Both tables, told apart by the kind in the key. */
    ghost var stored: map<Key, Stored>
    ghost var repr: set<StoredObject>

    constructor ()
      ensures Linked() && stored == map[] && repr == {}
    {
      monitors, scrapers, stored, repr := map[], map[], map[], {};
    }

    ghost predicate Linked()
      reads this, repr
    {
      TableLinked(monitors, Monitor, stored, repr) && TableLinked(scrapers, Scraper, stored, repr)
    }

    function Of(kind: Kind): map<string, StoredObject>
      reads this
    {
      if kind.Monitor? then monitors else scrapers
    }

    method Find(k: Key) returns (obj: StoredObject?)
      requires Linked()
      ensures obj == null <==> k !in stored
      ensures obj != null ==> obj in repr && obj.key == k && obj.Fields() == stored[k]
      ensures obj != null ==> k.name in Of(k.kind) && Of(k.kind)[k.name] == obj
    {
      obj := if k.name in Of(k.kind) then Of(k.kind)[k.name] else null;
    }

    /** Gives a stored object new fields. */
    method Show(obj: StoredObject, f: Stored)
      requires Linked() && obj.key in stored && obj.key.name in Of(obj.key.kind)
               && Of(obj.key.kind)[obj.key.name] == obj
      requires f.className == obj.className && f.serial == obj.serial
      modifies this`stored, obj
      ensures Linked() && stored == old(stored)[obj.key := f]
    {
      obj.Become(f);
      stored := stored[obj.key := f];
      assert TableLinked(monitors, Monitor, stored, repr);
      assert TableLinked(scrapers, Scraper, stored, repr);
    }

    /** Stores a new object. */
    method Insert(k: Key, obj: StoredObject)
      requires Linked() && k !in stored && obj.key == k
      modifies this
      ensures Linked() && stored == old(stored)[k := obj.Fields()] && repr == old(repr) + {obj}
    {
      if k.kind.Monitor? {
        monitors := monitors[k.name := obj];
      } else {
        scrapers := scrapers[k.name := obj];
      }
      stored := stored[k := obj.Fields()];
      repr := repr + {obj};
      assert TableLinked(monitors, Monitor, stored, repr);
      assert TableLinked(scrapers, Scraper, stored, repr);
    }

    /** The fields of the object that is stored under a key, if there is one. */
    function Look(k: Key): (e: Option<Stored>)
      requires Linked()
      reads this, repr
      ensures e == if k in stored then Some(stored[k]) else None
    {
      if k.name in Of(k.kind) then Some(Of(k.kind)[k.name].Fields()) else None
    }

    /** Changes the object that is stored under a key. */
    method Change(k: Key, f: Stored)
      requires Linked() && k in stored && f.className == stored[k].className && f.serial == stored[k].serial
      modifies this`stored, repr
      ensures Linked() && stored == old(stored)[k := f]
    {
      var obj := Find(k);
      Show(obj, f);
    }

    /** Stores a new object with these fields. */
    method Store(k: Key, f: Stored)
      requires Linked() && k !in stored && f.className == k.name
      modifies this
      ensures Linked() && stored == old(stored)[k := f] && fresh(repr - old(repr))
    {
      var obj := new StoredObject(k, f.serial);
      obj.Become(f);
      Insert(k, obj);
    }

    method Erase(k: Key)
      requires Linked() && k in stored
      modifies this`monitors, this`scrapers, this`stored
      ensures Linked() && stored == old(stored) - {k}
    {
      if k.kind.Monitor? {
        monitors := monitors - {k.name};
      } else {
        scrapers := scrapers - {k.name};
      }
      stored := stored - {k};
      assert TableLinked(monitors, Monitor, stored, repr);
      assert TableLinked(scrapers, Scraper, stored, repr);
    }

    /** The socket is gone; so is the entry, and its timer with it, when it has no process. */
    method RemoveStoredSocket(k: Key) returns (released: set<Timer>)
      requires Linked() && k in stored
      modifies this`monitors, this`scrapers, this`stored, repr
      ensures Linked()
      ensures stored == if old(stored)[k].process.None? then old(stored) - {k}
              else old(stored)[k := old(stored)[k].(endpoint := None)]
      ensures released == if old(stored)[k].process.None? then TimerOf(old(stored)[k]) else {}
    {
      var it := Look(k);
      var e := it.value;
      Change(k, e.(endpoint := None));
      released := {};
      if e.process.None? {
        Erase(k);
        released := TimerOf(e);
      }
    }

    /** The process is gone; so is the entry, and its timer with it, when it has no socket. */
    method RemoveStoredProcess(k: Key) returns (released: set<Timer>)
      requires Linked() && k in stored
      modifies this`monitors, this`scrapers, this`stored, repr
      ensures Linked()
      ensures stored == if old(stored)[k].endpoint.None? then old(stored) - {k}
              else old(stored)[k := old(stored)[k].(process := None)]
      ensures released == if old(stored)[k].endpoint.None? then TimerOf(old(stored)[k]) else {}
    {
      var it := Look(k);
      var e := it.value;
      Change(k, e.(process := None));
      released := {};
      if e.endpoint.None? {
        Erase(k);
        released := TimerOf(e);
      }
    }

    /** The names of one table in the order in which it happens to be walked through. */
    method Iterate(kind: Kind) returns (names: seq<string>)
      requires Linked()
      ensures Distinct(names)
      ensures forall name :: name in names <==> Key(kind, name) in stored
    {
      names := [];
      var todo := Of(kind).Keys;
      while todo != {}
        invariant Distinct(names) && (forall name :: name in todo ==> name !in names)
        invariant forall name :: name in names || name in todo <==> name in Of(kind)
      {
        var name :| name in todo;
        names, todo := names + [name], todo - {name};
      }
    }

    /** The loop over a table: it writes under the class names of the objects, and when these are
        their keys no object overwrites another's entry. */
    method Tabulate(kind: Kind) returns (payload: Payload)
      requires Linked() && forall k: Key :: k in stored ==> stored[k].className == k.name
      ensures payload == Tabulated(OfKind(stored, kind))
    {
      var processes: map<string, Pid>, sockets: map<string, string> := map[], map[];
      var todo := Of(kind).Keys;
      ghost var table := OfKind(stored, kind);
      OfKindFinds(stored, kind);
      assert todo == table.Keys;
      while todo != {}
        invariant todo <= table.Keys
        invariant TabulatedUntil(table, todo, processes, sockets)
      {
        var name :| name in todo;
        var it := Find(Key(kind, name));
        TabulateOne(table, todo, name, processes, sockets);
        if it.process.Some? {
          processes := processes[it.className := it.process.value];
        }
        if it.endpoint.Some? {
          sockets := sockets[it.className := it.endpoint.value];
        }
        todo := todo - {name};
      }
      payload := Tables(processes, sockets);
    }
  }

  /** The tables hold what they should of the entries that are not in `todo`. */
  ghost predicate TabulatedUntil(table: map<string, Stored>, todo: set<string>, processes: map<string, Pid>,
                                 sockets: map<string, string>) {
    && processes == (map name | name in table && name !in todo
       && table[name].process.Some? :: table[name].process.value)
    && sockets == (map name | name in table && name !in todo
       && table[name].endpoint.Some? :: table[name].endpoint.value)
  }

  lemma TabulateOne(table: map<string, Stored>, todo: set<string>, name: string, processes: map<string, Pid>,
                    sockets: map<string, string>)
    requires TabulatedUntil(table, todo, processes, sockets) && name in todo && name in table
    ensures var e := table[name];
            TabulatedUntil(table, todo - {name},
                           if e.process.Some? then processes[name := e.process.value] else processes,
                           if e.endpoint.Some? then sockets[name := e.endpoint.value] else sockets)
  {
  }
}
