/** Reading a phone's to-do list into a backup, and restoring it: entry by entry where the phone can write at a given
    location, otherwise by emptying the list and adding everything anew. */
module Todo {
  import opened Phonebook
  import opened Wrappers

  /** The first location from `from` on that is free, or one beyond the capacity. */
  function FirstFree(m: Memory, from: nat, capacity: nat): (l: nat)
    requires from <= capacity + 1
    ensures from <= l <= capacity + 1 && (l <= capacity ==> l !in m)
    ensures forall k :: from <= k < l ==> k in m
    decreases capacity + 1 - from
  {
    if from == capacity + 1 || from !in m then from else FirstFree(m, from + 1, capacity)
  }

  class TodoPhone {
    const capacity: nat
    const statusSupported: bool
    const setSupported: bool
    const deleteAllSupported: bool
    var memory: Memory

    ghost predicate Valid()
      reads this
    {
      ValidMemory(memory, capacity)
    }

    constructor (capacity: nat, statusSupported: bool, setSupported: bool, deleteAllSupported: bool, memory: Memory)
      requires ValidMemory(memory, capacity)
      ensures Valid() && this.memory == memory && this.capacity == capacity
      ensures this.statusSupported == statusSupported && this.setSupported == setSupported
      ensures this.deleteAllSupported == deleteAllSupported
    {
      this.capacity, this.memory := capacity, memory;
      this.statusSupported, this.setSupported := statusSupported, setSupported;
      this.deleteAllSupported := deleteAllSupported;
    }

    method GetToDoStatus() returns (error: Error, used: nat)
      ensures error == if statusSupported then ErrNone else ErrNotSupported
      ensures error == ErrNone ==> used == |memory|
    {
      if !statusSupported { return ErrNotSupported, 0; }
      return ErrNone, |memory|;
    }

    method GetNextToDo(location: nat, start: bool) returns (error: Error, todo: Entry)
      requires Valid() && location <= capacity
      ensures var l := NextUsed(memory, if start then 0 else location, capacity);
              if l <= capacity then error == ErrNone && todo == memory[l] else error == ErrEmpty
    {
      var l := NextUsed(memory, if start then 0 else location, capacity);
      if l <= capacity {
        return ErrNone, memory[l];
      }
      return ErrEmpty, Entry(location, []);
    }

    method SetToDo(todo: Entry) returns (error: Error)
      requires Valid() && (setSupported ==> 1 <= todo.location <= capacity)
      modifies this
      ensures Valid() && error == if setSupported then ErrNone else ErrNotSupported
      ensures memory == if setSupported then old(memory)[todo.location := todo] else old(memory)
    {
      if !setSupported { return ErrNotSupported; }
      memory := memory[todo.location := todo];
      return ErrNone;
    }

    /** Stores the entry at the first free location. */
    method AddToDo(todo: Entry)
      requires Valid() && FirstFree(memory, 1, capacity) <= capacity
      modifies this
      ensures Valid()
      ensures var l := FirstFree(old(memory), 1, capacity); memory == old(memory)[l := todo.(location := l)]
    {
      var l := FirstFree(memory, 1, capacity);
      memory := memory[l := todo.(location := l)];
    }

    method DeleteToDo(location: nat)
      requires Valid()
      modifies this
      ensures Valid() && memory == old(memory) - {location}
    {
      memory := memory - {location};
    }

    method DeleteAllToDo() returns (error: Error)
      modifies this
      ensures error == if deleteAllSupported then ErrNone else ErrNotSupported
      ensures memory == if deleteAllSupported then map[] else old(memory)
    {
      if !deleteAllSupported { return ErrNotSupported; }
      memory := map[];
      return ErrNone;
    }
  }

  // ----- Backup

  /** Reads the list, as far as it fits. A phone that cannot report its status is not read. */
  method ReadTodos(phone: TodoPhone, list: array<Option<Entry>>, maxEntries: nat)
    requires phone.Valid() && list.Length == maxEntries + 1 && Holds(list, [])
    modifies list
    ensures Holds(list, if phone.statusSupported then Backup(phone.memory, phone.capacity, maxEntries) else [])
  {
    ghost var m, c := phone.memory, phone.capacity;
    EntriesCount(m, 1, c);
    EntriesFromNext(m, 0, c);
    var status, count := phone.GetToDoStatus();
    if status != ErrNone || count == 0 { return; }
    ghost var done := [];
    var used := 0;
    var error, todo := phone.GetNextToDo(0, true);
    while error == ErrNone
      invariant used == |done| <= maxEntries && Holds(list, done)
      invariant Reading(m, c, done, error, todo)
      decreases maxEntries - used, error == ErrNone
    {
      if used >= maxEntries { break; }
      Store(list, used, todo, done);
      ReadingStep(m, c, done, todo);
      done := done + [todo];
      used := used + 1;
      error, todo := phone.GetNextToDo(todo.location, false);
    }
  }

  // ----- Restore

  /** The entries at their own locations; of several for one location, the last. */
  function AtLocations(es: seq<Entry>): Memory {
    if es == [] then map[]
    else
      var last := es[|es| - 1];
      AtLocations(es[..|es| - 1])[last.location := last]
  }

  predicate LocationListed(es: seq<Entry>, l: nat) {
    exists i :: 0 <= i < |es| && es[i].location == l
  }

  lemma {:induction false} AtLocationsKeys(es: seq<Entry>, l: nat)
    ensures l in AtLocations(es) <==> LocationListed(es, l)
  {
    if es != [] {
      var init, last := es[..|es| - 1], es[|es| - 1];
      AtLocationsKeys(init, l);
      if LocationListed(init, l) {
        var i :| 0 <= i < |init| && init[i].location == l;
        assert es[i].location == l;
      }
      if LocationListed(es, l) && last.location != l {
        var i :| 0 <= i < |es| && es[i].location == l;
        assert init[i].location == l;
      }
    }
  }

  /** The entries in their order, at the locations 1, 2, 3, ... */
  function Numbered(es: seq<Entry>): (m: Memory)
    ensures forall l: nat :: l in m <==> 1 <= l <= |es|
    ensures |m| == |es|
  {
    if es == [] then map[]
    else
      var n := |es|;
      Numbered(es[..n - 1])[n := es[n - 1].(location := n)]
  }

  lemma {:induction false} NumberedAt(es: seq<Entry>, l: nat)
    requires 1 <= l <= |es|
    ensures Numbered(es)[l] == es[l - 1].(location := l)
  {
    if l < |es| {
      NumberedAt(es[..|es| - 1], l);
    }
  }

  predicate Within(es: seq<Entry>, capacity: nat) {
    forall i :: 0 <= i < |es| ==> 1 <= es[i].location <= capacity
  }

  /** Deletes entry after entry from the start until nothing is left. */
  method DeleteOneByOne(phone: TodoPhone)
    requires phone.Valid()
    modifies phone
    ensures phone.Valid() && phone.memory == map[]
  {
    while true
      invariant phone.Valid()
      decreases phone.capacity + 1 - NextUsed(phone.memory, 0, phone.capacity)
    {
      ghost var m, first := phone.memory, NextUsed(phone.memory, 0, phone.capacity);
      var error, todo := phone.GetNextToDo(0, true);
      if error != ErrNone { break; }
      phone.DeleteToDo(todo.location);
      NextAfterDelete(m, phone.capacity);
    }
  }

  lemma NextAfterDelete(m: Memory, capacity: nat)
    requires ValidMemory(m, capacity) && NextUsed(m, 0, capacity) <= capacity
    ensures var l := NextUsed(m, 0, capacity);
            NextUsed(m - {l}, 0, capacity) > l
  {
    var l := NextUsed(m, 0, capacity);
    var next := NextUsed(m - {l}, 0, capacity);
    if next <= capacity {
      assert next in m - {l};
    }
  }

  /** After `i` entries the next free location is `i + 1`. */
  lemma NextNumber(es: seq<Entry>, i: nat, capacity: nat)
    requires i < |es| <= capacity
    ensures FirstFree(Numbered(es[..i]), 1, capacity) == i + 1
    ensures Numbered(es[..i + 1]) == Numbered(es[..i])[i + 1 := es[i].(location := i + 1)]
  {
    FirstFreeIs(Numbered(es[..i]), i, capacity);
    assert es[..i + 1][..i] == es[..i];
  }

  lemma FirstFreeIs(m: Memory, n: nat, capacity: nat)
    requires n < capacity && n + 1 !in m && forall l :: 1 <= l <= n ==> l in m
    ensures FirstFree(m, 1, capacity) == n + 1
  {
  }

  /** Empties the list and adds the backup's entries. */
  method RestoreByAdding(phone: TodoPhone, list: array<Option<Entry>>, max: nat, ghost es: seq<Entry>)
    requires phone.Valid() && Holds(list, es) && |es| == max <= phone.capacity
    modifies phone
    ensures phone.Valid() && phone.memory == Numbered(es)
  {
    var error := phone.DeleteAllToDo();
    if error == ErrNotSupported {
      DeleteOneByOne(phone);
    }
    for i := 0 to max
      invariant phone.Valid() && phone.memory == Numbered(es[..i])
    {
      NextNumber(es, i, phone.capacity);
      phone.AddToDo(list[i].value.(location := 0));
    }
    assert es[..max] == es;
  }

  /** Deletes the entries whose locations are not in the backup. */
  method DeleteUnlisted(phone: TodoPhone, list: array<Option<Entry>>, max: nat, ghost es: seq<Entry>)
    requires phone.Valid() && Holds(list, es) && |es| == max
    modifies phone
    ensures phone.Valid() && forall l <- phone.memory :: LocationListed(es, l)
  {
    var error, todo := phone.GetNextToDo(0, true);
    while error == ErrNone
      invariant phone.Valid() && (error == ErrNone ==> 1 <= todo.location <= phone.capacity)
      invariant forall l <- phone.memory :: LocationListed(es, l) || (error == ErrNone && todo.location <= l)
      decreases if error == ErrNone then phone.capacity + 1 - todo.location else 0
    {
      var found := false;
      for i := 0 to max
        invariant !found && forall k :: 0 <= k < i ==> es[k].location != todo.location
      {
        if list[i].value.location == todo.location {
          found := true;
          assert LocationListed(es, todo.location);
          break;
        }
      }
      if !found {
        phone.DeleteToDo(todo.location);
      }
      error, todo := phone.GetNextToDo(todo.location, false);
    }
  }

  /** Deletes what is not in the backup and writes everything that is. */
  method RestoreInPlace(phone: TodoPhone, list: array<Option<Entry>>, max: nat, ghost es: seq<Entry>)
    requires phone.Valid() && phone.setSupported && Holds(list, es) && |es| == max && Within(es, phone.capacity)
    modifies phone
    ensures phone.Valid() && phone.memory == AtLocations(es)
  {
    DeleteUnlisted(phone, list, max, es);
    ghost var kept := phone.memory;
    for i := 0 to max
      invariant phone.Valid() && phone.memory == kept + AtLocations(es[..i])
    {
      assert es[..i + 1][..i] == es[..i];
      WriteOne(kept, AtLocations(es[..i]), es[i]);
      var error := phone.SetToDo(list[i].value);
    }
    assert es[..max] == es;
    AllOverwritten(kept, es);
  }

  lemma WriteOne(a: Memory, b: Memory, e: Entry)
    ensures (a + b)[e.location := e] == a + b[e.location := e]
  {
  }

  lemma AllOverwritten(kept: Memory, es: seq<Entry>)
    requires forall l <- kept :: LocationListed(es, l)
    ensures kept + AtLocations(es) == AtLocations(es)
  {
    forall l <- kept
      ensures l in AtLocations(es)
    {
      AtLocationsKeys(es, l);
    }
  }

  /** What a restore leaves. */
  function Restored(m: Memory, es: seq<Entry>, statusSupported: bool, setSupported: bool): Memory {
    if es == [] || !statusSupported then m else if setSupported then AtLocations(es) else Numbered(es)
  }

  /** Restores a to-do list. Writing the first entry shows whether the phone can write at a given location. */
  method Restore(phone: TodoPhone, list: array<Option<Entry>>, ghost es: seq<Entry>)
    requires phone.Valid() && Holds(list, es)
    requires Within(es, phone.capacity) && |es| <= phone.capacity
    modifies phone
    ensures phone.Valid()
    ensures phone.memory == Restored(old(phone.memory), es, phone.statusSupported, phone.setSupported)
    ensures es == [] || !phone.statusSupported ==> phone.memory == old(phone.memory)
    ensures es != [] && phone.statusSupported && phone.setSupported ==> phone.memory == AtLocations(es)
    ensures es != [] && phone.statusSupported && !phone.setSupported ==> phone.memory == Numbered(es)
  {
    if list[0] == None { return; }
    var status, count := phone.GetToDoStatus();
    if status != ErrNone { return; }
    var max := 0;
    while list[max] != None
      invariant 0 <= max <= |es|
      decreases |es| - max
    {
      max := max + 1;
    }
    var error := phone.SetToDo(list[0].value);
    if error == ErrNotSupported {
      RestoreByAdding(phone, list, max, es);
    } else {
      RestoreInPlace(phone, list, max, es);
    }
  }

  // ----- What a restore brings back

  lemma {:induction false} AtLocationsCons(e: Entry, es: seq<Entry>)
    ensures AtLocations([e] + es) == map[e.location := e] + AtLocations(es)
  {
    if es == [] {
      assert [e] + es == [e];
      assert [e][..0] == [];
      assert AtLocations([e]) == map[e.location := e];
    } else {
      var init, last := es[..|es| - 1], es[|es| - 1];
      AtLocationsCons(e, init);
      assert ([e] + es)[..|es|] == [e] + init && ([e] + es)[|es|] == last;
      WriteOne(map[e.location := e], AtLocations(init), last);
    }
  }

  lemma EntriesStep(m: Memory, from: nat, capacity: nat)
    requires from <= capacity
    ensures var rest := Entries(m, from + 1, capacity);
            Entries(m, from, capacity) == if from in m then [m[from]] + rest else rest
  {
  }

  /** The memory from a location on. */
  function From(m: Memory, from: nat): Memory {
    map l | l in m && from <= l :: m[l]
  }

  lemma FromStep(m: Memory, from: nat)
    ensures From(m, from) == (if from in m then map[from := m[from]] else map[]) + From(m, from + 1)
    ensures from !in m ==> From(m, from) == From(m, from + 1)
  {
  }

  /** The entries from a location on, put at their locations, are the memory from that location on. */
  lemma {:induction false} AtLocationsOfEntries(m: Memory, from: nat, capacity: nat)
    requires from <= capacity + 1 && ValidMemory(m, capacity)
    ensures AtLocations(Entries(m, from, capacity)) == From(m, from)
    decreases capacity + 1 - from
  {
    if from == capacity + 1 {
      assert From(m, from) == map[];
    } else {
      AtLocationsOfEntries(m, from + 1, capacity);
      EntriesStep(m, from, capacity);
      FromStep(m, from);
      if from in m {
        AtLocationsCons(m[from], Entries(m, from + 1, capacity));
      }
    }
  }

  /** Locations 1, 2, 3, ... are in use, without a gap. */
  predicate Gapless(m: Memory) {
    forall l <- m :: 1 <= l <= |m|
  }

  /** The contents of the entries, without their locations. */
  function Contents(es: seq<Entry>): seq<seq<string>> {
    seq(|es|, i requires 0 <= i < |es| => es[i].items)
  }

  lemma ContentsCons(e: Entry, es: seq<Entry>)
    ensures Contents([e] + es) == [e.items] + Contents(es)
  {
  }

  /** The entries of a memory that holds these contents at the locations 1, 2, 3, ... */
  lemma {:induction false} EntriesOfNumbered(m: Memory, es: seq<Entry>, from: nat, capacity: nat)
    requires forall l: nat :: l in m <==> 1 <= l <= |es|
    requires forall l <- m :: m[l].items == es[l - 1].items
    requires 1 <= from <= |es| + 1 && |es| <= capacity
    ensures Contents(Entries(m, from, capacity)) == Contents(es[from - 1..])
    decreases capacity + 1 - from
  {
    if from == |es| + 1 {
      EntriesSkip(m, from, capacity + 1, capacity);
    } else {
      EntriesOfNumbered(m, es, from + 1, capacity);
      EntriesStep(m, from, capacity);
      ContentsCons(m[from], Entries(m, from + 1, capacity));
      ContentsCons(es[from - 1], es[from..]);
      assert es[from - 1..] == [es[from - 1]] + es[from..];
    }
  }

  /** Either way of restoring leaves the backed-up entries in their order and nothing else; a phone that cannot
      write at a given location numbers them anew. */
  lemma BothWaysKeepContents(m: Memory, m': Memory, capacity: nat, setSupported: bool)
    requires ValidMemory(m, capacity) && ValidMemory(m', capacity) && m != map[]
    ensures var es := Entries(m, 1, capacity);
            && es != []
            && Contents(Entries(Restored(m', es, true, setSupported), 1, capacity)) == Contents(es)
  {
    var es := Entries(m, 1, capacity);
    ListNotEmpty(m, capacity);
    if setSupported {
      InPlaceIsExact(m, capacity);
    } else {
      EntriesShort(m, 1, capacity);
      var t := Numbered(es);
      forall l <- t
        ensures t[l].items == es[l - 1].items
      {
        NumberedAt(es, l);
      }
      EntriesOfNumbered(t, es, 1, capacity);
      assert es[0..] == es;
    }
  }

  lemma ListNotEmpty(m: Memory, capacity: nat)
    requires ValidMemory(m, capacity) && m != map[]
    ensures Entries(m, 1, capacity) != []
  {
    EntriesCount(m, 1, capacity);
    assert |m.Keys| == |m| && m.Keys != {};
  }

  lemma InPlaceIsExact(m: Memory, capacity: nat)
    requires ValidMemory(m, capacity)
    ensures AtLocations(Entries(m, 1, capacity)) == m
  {
    AtLocationsOfEntries(m, 1, capacity);
    assert From(m, 1) == m;
  }

  /** Locations that are not in use at the end do not matter. */
  lemma {:induction false} EntriesUpTo(m: Memory, from: nat, last: nat, capacity: nat)
    requires from <= last + 1 && last <= capacity && forall l <- m :: l <= last
    ensures Entries(m, from, capacity) == Entries(m, from, last)
    decreases last + 1 - from
  {
    if from == last + 1 {
      EntriesSkip(m, from, capacity + 1, capacity);
    } else {
      EntriesUpTo(m, from + 1, last, capacity);
    }
  }

  /** When there are as many entries as locations, every location is in use. */
  lemma {:induction false} AllInUse(m: Memory, from: nat, last: nat, l: nat)
    requires from <= l <= last && |Entries(m, from, last)| == last + 1 - from
    ensures l in m && Entries(m, from, last)[l - from] == m[l]
    decreases last + 1 - from
  {
    EntriesShort(m, from + 1, last);
    if l > from {
      AllInUse(m, from + 1, last, l);
    }
  }

  lemma GaplessNumbered(m: Memory, capacity: nat)
    requires ValidMemory(m, capacity) && Gapless(m)
    ensures Numbered(Entries(m, 1, capacity)) == m
  {
    var es, n := Entries(m, 1, capacity), |m|;
    EntriesCount(m, 1, capacity);
    EntriesShort(m, 1, capacity);
    EntriesUpTo(m, 1, n, capacity);
    var t := Numbered(es);
    forall l: nat
      ensures (l in t <==> l in m) && (l in t ==> t[l] == m[l])
    {
      if 1 <= l <= n {
        AllInUse(m, 1, n, l);
        NumberedAt(es, l);
      }
    }
  }

  /** Numbering the entries anew gives back the memory exactly when its locations had no gaps. */
  lemma NumberedIff(m: Memory, capacity: nat)
    requires ValidMemory(m, capacity)
    ensures Numbered(Entries(m, 1, capacity)) == m <==> Gapless(m)
  {
    EntriesCount(m, 1, capacity);
    if Gapless(m) {
      GaplessNumbered(m, capacity);
    } else {
      var t := Numbered(Entries(m, 1, capacity));
      assert Gapless(t);
    }
  }

  /** Backing up one to-do list and restoring it over another gives exactly the first if and only if it fits the
      limit, it has no gaps or the phone can write at a given location, and an empty backup meets an empty phone. */
  lemma TodoRoundTripIff(m: Memory, m': Memory, capacity: nat, maxEntries: nat, setSupported: bool)
    requires ValidMemory(m, capacity) && ValidMemory(m', capacity) && maxEntries > 0
    ensures Restored(m', Backup(m, capacity, maxEntries), true, setSupported) == m <==>
            && |m| <= maxEntries
            && (setSupported || Gapless(m))
            && (m == map[] ==> m' == map[])
  {
    var all, es := Entries(m, 1, capacity), Backup(m, capacity, maxEntries);
    EntriesCount(m, 1, capacity);
    if m != map[] {
      ListNotEmpty(m, capacity);
      if |m| <= maxEntries {
        InPlaceIsExact(m, capacity);
        NumberedIff(m, capacity);
      } else {
        TruncatedSmaller(m, capacity, maxEntries, setSupported);
      }
    }
  }

  lemma TruncatedSmaller(m: Memory, capacity: nat, maxEntries: nat, setSupported: bool)
    requires ValidMemory(m, capacity) && 0 < maxEntries < |Entries(m, 1, capacity)|
    ensures (if setSupported then AtLocations(Backup(m, capacity, maxEntries))
             else Numbered(Backup(m, capacity, maxEntries))) != m
  {
    var all, es := Entries(m, 1, capacity), Backup(m, capacity, maxEntries);
    EntriesAscending(m, 1, capacity);
    EntriesListed(m, 1, capacity, maxEntries);
    var l := all[maxEntries].location;
    if setSupported {
      forall i | 0 <= i < |es|
        ensures es[i].location != l
      {
        assert es[i] == all[i];
      }
      AtLocationsKeys(es, l);
    } else {
      EntriesCount(m, 1, capacity);
    }
  }

  lemma BackupFits(m: Memory, capacity: nat, maxEntries: nat)
    requires ValidMemory(m, capacity)
    ensures var es := Backup(m, capacity, maxEntries);
            Within(es, capacity) && |es| <= capacity
  {
    EntriesAscending(m, 1, capacity);
    EntriesShort(m, 1, capacity);
  }

  /** Backs one list up and restores it to another phone of the same capacity. */
  method BackupAndRestore(from: TodoPhone, to: TodoPhone, maxEntries: nat)
    requires from.Valid() && to.Valid() && from != to && maxEntries > 0
    requires from.capacity == to.capacity && from.statusSupported && to.statusSupported
    modifies to
    ensures to.Valid()
    ensures to.memory == from.memory <==>
            && |from.memory| <= maxEntries
            && (to.setSupported || Gapless(from.memory))
            && (from.memory == map[] ==> old(to.memory) == map[])
  {
    var list := new Option<Entry>[maxEntries + 1](_ => None);
    ReadTodos(from, list, maxEntries);
    ghost var es := Backup(from.memory, from.capacity, maxEntries);
    BackupFits(from.memory, from.capacity, maxEntries);
    TodoRoundTripIff(from.memory, to.memory, from.capacity, maxEntries, to.setSupported);
    Restore(to, list, es);
  }
}
