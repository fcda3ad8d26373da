/** Reading a phone's phonebook into a backup, and merging a backup into a phone. */
module Phonebook {
  import opened Wrappers

  /** A phonebook entry; `items` are its sub-entries (numbers, names, ...). */
  datatype Entry = Entry(location: nat, items: seq<string>)

  type Memory = map<nat, Entry>

  datatype Error = ErrNone | ErrEmpty | ErrNotSupported | ErrInvalidLocation

  predicate ValidMemory(m: Memory, capacity: nat) {
    forall l <- m :: 1 <= l <= capacity && m[l].location == l
  }

  /** The entries from location `from` on, by ascending location. */
  function Entries(m: Memory, from: nat, capacity: nat): (es: seq<Entry>)
    requires from <= capacity + 1
    decreases capacity + 1 - from
  {
    if from == capacity + 1 then []
    else (if from in m then [m[from]] else []) + Entries(m, from + 1, capacity)
  }

  /** The first location after `after` that is in use, or one beyond the capacity. */
  function NextUsed(m: Memory, after: nat, capacity: nat): (l: nat)
    requires after <= capacity
    ensures after < l <= capacity + 1 && (l <= capacity ==> l in m)
    ensures forall k :: after < k < l ==> k !in m
    decreases capacity - after
  {
    if after == capacity || after + 1 in m then after + 1 else NextUsed(m, after + 1, capacity)
  }

  lemma {:induction false} EntriesSkip(m: Memory, from: nat, to: nat, capacity: nat)
    requires from <= to <= capacity + 1 && forall k :: from <= k < to ==> k !in m
    ensures Entries(m, from, capacity) == Entries(m, to, capacity)
    decreases capacity + 1 - from
  {
    if from < to {
      EntriesSkip(m, from + 1, to, capacity);
    }
  }

  lemma EntriesFromNext(m: Memory, after: nat, capacity: nat)
    requires after <= capacity
    ensures var l := NextUsed(m, after, capacity);
            Entries(m, after + 1, capacity)
            == if l == capacity + 1 then [] else [m[l]] + Entries(m, l + 1, capacity)
  {
    EntriesSkip(m, after + 1, NextUsed(m, after, capacity), capacity);
  }

  /** How many locations are in use from `from` on. */
  lemma {:induction false} EntriesCount(m: Memory, from: nat, capacity: nat)
    requires 1 <= from <= capacity + 1 && forall l <- m :: from <= l <= capacity
    ensures |Entries(m, from, capacity)| == |m|
    decreases capacity + 1 - from
  {
    if from == capacity + 1 {
      assert forall l :: l !in m;
      assert m == map[];
    } else if from in m {
      var m' := m - {from};
      assert m == m'[from := m[from]];
      EntriesCount(m', from + 1, capacity);
      EntriesRestrict(m, m', from + 1, capacity);
    } else {
      EntriesCount(m, from + 1, capacity);
    }
  }

  lemma {:induction false} EntriesRestrict(m: Memory, m': Memory, from: nat, capacity: nat)
    requires from <= capacity + 1
    requires forall l :: from <= l <= capacity ==> (l in m <==> l in m') && (l in m ==> m[l] == m'[l])
    ensures Entries(m, from, capacity) == Entries(m', from, capacity)
    decreases capacity + 1 - from
  {
    if from < capacity + 1 {
      EntriesRestrict(m, m', from + 1, capacity);
    }
  }

  predicate Ascending(es: seq<Entry>, from: nat, to: nat) {
    && (forall i :: 0 <= i < |es| ==> from <= es[i].location <= to)
    && (forall i, j :: 0 <= i < j < |es| ==> es[i].location < es[j].location)
  }

  lemma {:induction false} EntriesAscending(m: Memory, from: nat, capacity: nat)
    requires from <= capacity + 1 && ValidMemory(m, capacity)
    ensures Ascending(Entries(m, from, capacity), from, capacity)
    decreases capacity + 1 - from
  {
    if from < capacity + 1 {
      EntriesAscending(m, from + 1, capacity);
    }
  }

  // ----- The phone

  class Phone {
    const capacity: nat
    const statusSupported: bool
    const nextSupported: bool
    var memory: Memory

    ghost predicate Valid()
      reads this
    {
      ValidMemory(memory, capacity)
    }

    constructor (capacity: nat, statusSupported: bool, nextSupported: bool, memory: Memory)
      requires ValidMemory(memory, capacity)
      ensures Valid() && this.memory == memory && this.capacity == capacity
      ensures this.statusSupported == statusSupported && this.nextSupported == nextSupported
    {
      this.capacity, this.statusSupported, this.nextSupported := capacity, statusSupported, nextSupported;
      this.memory := memory;
    }

    method GetMemoryStatus() returns (error: Error, used: nat, free: nat)
      requires Valid()
      ensures error == if statusSupported then ErrNone else ErrNotSupported
      ensures error == ErrNone ==> used == |memory| && used + free == capacity
    {
      if !statusSupported { return ErrNotSupported, 0, 0; }
      EntriesCount(memory, 1, capacity);
      EntriesShort(memory, 1, capacity);
      return ErrNone, |memory|, capacity - |memory|;
    }

    predicate HasLocation(location: nat) {
      1 <= location <= capacity
    }

    method GetMemory(location: nat) returns (error: Error, entry: Entry)
      requires Valid()
      ensures error == if !HasLocation(location) then ErrInvalidLocation
                       else if location in memory then ErrNone else ErrEmpty
      ensures location in memory ==> entry == memory[location]
    {
      if !HasLocation(location) { return ErrInvalidLocation, Entry(location, []); }
      if location in memory {
        return ErrNone, memory[location];
      }
      return ErrEmpty, Entry(location, []);
    }

    /** The next entry in use after `location`, or the first one. */
    method GetNextMemory(location: nat, start: bool) returns (error: Error, entry: Entry)
      requires Valid() && location <= capacity
      ensures !nextSupported <==> error == ErrNotSupported
      ensures nextSupported ==>
                var l := NextUsed(memory, if start then 0 else location, capacity);
                if l <= capacity then error == ErrNone && entry == memory[l] else error == ErrEmpty
    {
      if !nextSupported { return ErrNotSupported, Entry(location, []); }
      var l := NextUsed(memory, if start then 0 else location, capacity);
      if l <= capacity {
        return ErrNone, memory[l];
      }
      return ErrEmpty, Entry(location, []);
    }

    method SetMemory(entry: Entry) returns (error: Error)
      requires Valid()
      modifies this
      ensures Valid() && error == if HasLocation(entry.location) then ErrNone else ErrInvalidLocation
      ensures memory == if error == ErrNone then old(memory)[entry.location := entry] else old(memory)
    {
      if !HasLocation(entry.location) { return ErrInvalidLocation; }
      memory := memory[entry.location := entry];
      return ErrNone;
    }

    method DeleteMemory(location: nat) returns (error: Error)
      requires Valid()
      modifies this
      ensures Valid() && memory == old(memory) - {location}
      ensures error == if !HasLocation(location) then ErrInvalidLocation
                       else if location in old(memory) then ErrNone else ErrEmpty
    {
      if !HasLocation(location) {
        assert memory - {location} == memory;
        return ErrInvalidLocation;
      }
      error := if location in memory then ErrNone else ErrEmpty;
      memory := memory - {location};
    }
  }

  lemma {:induction false} EntriesShort(m: Memory, from: nat, capacity: nat)
    requires from <= capacity + 1
    ensures |Entries(m, from, capacity)| <= capacity + 1 - from
    decreases capacity + 1 - from
  {
    if from < capacity + 1 {
      EntriesShort(m, from + 1, capacity);
    }
  }

  // ----- Backup

  /** A backup's list of entries: entries up to the first missing one. */
  ghost predicate Holds(list: array<Option<Entry>>, es: seq<Entry>)
    reads list
  {
    && |es| < list.Length
    && (forall i :: 0 <= i < |es| ==> list[i] == Some(es[i]))
    && list[|es|] == None
  }

  function Take(es: seq<Entry>, n: nat): seq<Entry> {
    if |es| <= n then es else es[..n]
  }

  /** The list read from a phone: its entries by ascending location, as many as fit. */
  function Backup(m: Memory, capacity: nat, maxEntries: nat): seq<Entry> {
    Take(Entries(m, 1, capacity), maxEntries)
  }

  /** Stores an entry after those in the list, and the end mark after it. */
  method Store(list: array<Option<Entry>>, used: nat, pbk: Entry, ghost done: seq<Entry>)
    requires Holds(list, done) && |done| == used && used + 1 < list.Length
    modifies list
    ensures Holds(list, done + [pbk])
  {
    list[used] := Some(pbk);
    list[used + 1] := None;
  }

  /** Reads with next-entry queries, starting from the first entry already read. */
  method ReadNext(phone: Phone, first: Entry, list: array<Option<Entry>>, maxEntries: nat)
    requires phone.Valid() && phone.nextSupported && list.Length == maxEntries + 1
    requires Holds(list, [])
    requires var l := NextUsed(phone.memory, 0, phone.capacity);
             l <= phone.capacity && first == phone.memory[l]
    modifies list
    ensures Holds(list, Backup(phone.memory, phone.capacity, maxEntries))
  {
    ghost var m, c := phone.memory, phone.capacity;
    ghost var done := [];
    EntriesFromNext(m, 0, c);
    var used, pbk, error := 0, first, ErrNone;
    while error == ErrNone
      invariant used == |done| <= maxEntries && Holds(list, done)
      invariant Reading(m, c, done, error, pbk)
      decreases maxEntries - used, error == ErrNone
    {
      if used >= maxEntries { break; }
      Store(list, used, pbk, done);
      ReadingStep(m, c, done, pbk);
      done := done + [pbk];
      used := used + 1;
      error, pbk := phone.GetNextMemory(pbk.location, false);
    }
  }

  /** The entries `done` have been stored; `pbk` is the next one, unless the query failed. */
  ghost predicate Reading(m: Memory, c: nat, done: seq<Entry>, error: Error, pbk: Entry) {
    && (error == ErrNone ==> 1 <= pbk.location <= c)
    && Entries(m, 1, c) == done + if error == ErrNone then [pbk] + Entries(m, pbk.location + 1, c) else []
  }

  lemma ReadingStep(m: Memory, c: nat, done: seq<Entry>, pbk: Entry)
    requires ValidMemory(m, c) && Reading(m, c, done, ErrNone, pbk)
    ensures var l := NextUsed(m, pbk.location, c);
            if l <= c then Reading(m, c, done + [pbk], ErrNone, m[l])
            else forall e :: Reading(m, c, done + [pbk], ErrEmpty, e)
  {
    EntriesFromNext(m, pbk.location, c);
    assert done + ([pbk] + Entries(m, pbk.location + 1, c)) == (done + [pbk]) + Entries(m, pbk.location + 1, c);
  }

  /** Reads location by location until as many entries are found as the status reported. */
  method ReadScan(phone: Phone, memoryUsed: nat, list: array<Option<Entry>>, maxEntries: nat)
    requires phone.Valid() && memoryUsed == |phone.memory| && list.Length == maxEntries + 1
    requires Holds(list, [])
    modifies list
    ensures Holds(list, Backup(phone.memory, phone.capacity, maxEntries))
  {
    ghost var m, c := phone.memory, phone.capacity;
    ghost var done := [];
    EntriesCount(m, 1, c);
    var i, used := 1, 0;
    while used < memoryUsed
      invariant used == |done| <= maxEntries && Holds(list, done)
      invariant 1 <= i <= c + 1 && Scanned(m, c, done, i)
      decreases c + 1 - i
    {
      ScannedStep(m, c, done, i);
      var error, pbk := phone.GetMemory(i);
      if error != ErrEmpty {
        if used >= maxEntries { break; }
        Store(list, used, pbk, done);
        done := done + [pbk];
        used := used + 1;
      }
      i := i + 1;
    }
  }

  /** The entries `done` are those below location `i`. */
  ghost predicate Scanned(m: Memory, c: nat, done: seq<Entry>, i: nat)
    requires i <= c + 1
  {
    Entries(m, 1, c) == done + Entries(m, i, c)
  }

  lemma ScannedStep(m: Memory, c: nat, done: seq<Entry>, i: nat)
    requires i <= c + 1 && Scanned(m, c, done, i) && |done| < |Entries(m, 1, c)|
    ensures i <= c && Scanned(m, c, if i in m then done + [m[i]] else done, i + 1)
  {
    if i in m {
      assert done + ([m[i]] + Entries(m, i + 1, c)) == (done + [m[i]]) + Entries(m, i + 1, c);
    }
  }

  /** Reads the phonebook. Whichever of the two ways the phone supports, the list comes out the same. */
  method ReadPhonebook(phone: Phone, list: array<Option<Entry>>, maxEntries: nat) returns (error: Error)
    requires phone.Valid() && list.Length == maxEntries + 1 && Holds(list, [])
    modifies list
    ensures error == ErrNone ==> Holds(list, Backup(phone.memory, phone.capacity, maxEntries))
    ensures error != ErrNone <==>
            !phone.statusSupported && (!phone.nextSupported || phone.memory == map[])
  {
    ghost var m, c := phone.memory, phone.capacity;
    var pbk := Entry(0, []);
    var useNext, memoryUsed := false, 0;
    EntriesCount(m, 1, c);
    EntriesFromNext(m, 0, c);
    var status, used, free := phone.GetMemoryStatus();
    if status == ErrNone {
      memoryUsed := used;
      if memoryUsed == 0 { return ErrNone; }
      error, pbk := phone.GetNextMemory(0, true);
      if error == ErrNone { useNext := true; }
    } else {
      useNext := true;
      error, pbk := phone.GetNextMemory(0, true);
      if error != ErrNone { return error; }
    }
    if useNext {
      ReadNext(phone, pbk, list, maxEntries);
    } else {
      ReadScan(phone, memoryUsed, list, maxEntries);
    }
    return ErrNone;
  }

  // ----- Restore

  /** What one pass over the locations `from` to `total` leaves there: the entry whose turn it is, if it has
      any content, and nothing otherwise. */
  function Merged(es: seq<Entry>, from: nat, total: nat): Memory
    requires from <= total + 1
    decreases total + 1 - from
  {
    if from == total + 1 then map[]
    else if es != [] && es[0].location == from then
      Merged(es[1..], from + 1, total) + (if es[0].items != [] then map[from := es[0]] else map[])
    else Merged(es, from + 1, total)
  }

  /** The pass reaches an entry only if its location lies beyond all those before it and within the range. */
  function Reached(es: seq<Entry>, from: nat, total: nat): (n: nat)
    requires from <= total + 1
    ensures n <= |es|
    decreases total + 1 - from
  {
    if from == total + 1 then 0
    else if es != [] && es[0].location == from then 1 + Reached(es[1..], from + 1, total)
    else Reached(es, from + 1, total)
  }

  lemma {:induction false} MergedKeys(es: seq<Entry>, from: nat, total: nat)
    requires from <= total + 1
    ensures forall l <- Merged(es, from, total) :: from <= l <= total
    decreases total + 1 - from
  {
    if from < total + 1 {
      if es != [] && es[0].location == from {
        MergedKeys(es[1..], from + 1, total);
      } else {
        MergedKeys(es, from + 1, total);
      }
    }
  }

  /** What one step of the pass does to its location. */
  lemma MergedStep(es: seq<Entry>, from: nat, total: nat)
    requires from <= total
    ensures var turn := es != [] && es[0].location == from;
            var rest := if turn then es[1..] else es;
            Merged(es, from, total) ==
            if turn && es[0].items != [] then Merged(rest, from + 1, total)[from := es[0]]
            else Merged(rest, from + 1, total)
  {
  }

  /** One pass over the locations `from` to `total`, step by step. */
  function Pass(m: Memory, es: seq<Entry>, from: nat, total: nat): Memory
    requires from <= total + 1
    decreases total + 1 - from
  {
    if from == total + 1 then m
    else if es != [] && es[0].location == from then
      Pass(if es[0].items != [] then m[from := es[0]] else m - {from}, es[1..], from + 1, total)
    else Pass(m - {from}, es, from + 1, total)
  }

  /** The memory outside `from` to `total`. */
  function Outside(m: Memory, from: nat, total: nat): Memory {
    map l | l in m && !(from <= l <= total) :: m[l]
  }

  lemma OutsideSet(m: Memory, e: Entry, from: nat, total: nat)
    requires from <= total
    ensures Outside(m[from := e], from + 1, total) == Outside(m, from, total)[from := e]
  {
  }

  lemma OutsideDelete(m: Memory, from: nat, total: nat)
    requires from <= total
    ensures Outside(m - {from}, from + 1, total) == Outside(m, from, total)
  {
  }

  lemma Override(a: Memory, b: Memory, l: nat, e: Entry)
    requires l !in b
    ensures a[l := e] + b == a + b[l := e]
  {
  }

  /** The pass leaves other locations alone and replaces those it goes over. */
  lemma {:induction false} PassMerges(m: Memory, es: seq<Entry>, from: nat, total: nat)
    requires from <= total + 1
    ensures Pass(m, es, from, total) == Outside(m, from, total) + Merged(es, from, total)
    decreases total + 1 - from
  {
    if from == total + 1 {
      assert Outside(m, from, total) == m;
    } else {
      var turn := es != [] && es[0].location == from;
      var rest := if turn then es[1..] else es;
      MergedStep(es, from, total);
      MergedKeys(rest, from + 1, total);
      if turn && es[0].items != [] {
        PassMerges(m[from := es[0]], rest, from + 1, total);
        OutsideSet(m, es[0], from, total);
        Override(Outside(m, from, total), Merged(rest, from + 1, total), from, es[0]);
      } else {
        PassMerges(m - {from}, rest, from + 1, total);
        OutsideDelete(m, from, total);
      }
    }
  }

  /** How a pass over the locations `from` to `total` ends on a phone with fewer of them: writing to a location that
      does not exist is passed over, deleting there stops the program. */
  function PassError(es: seq<Entry>, from: nat, total: nat, capacity: nat): Error
    requires from <= total + 1
    decreases total + 1 - from
  {
    if from == total + 1 then ErrNone
    else if es != [] && es[0].location == from then
      if from > capacity && es[0].items == [] then ErrInvalidLocation
      else PassError(es[1..], from + 1, total, capacity)
    else if from > capacity then ErrInvalidLocation
    else PassError(es, from + 1, total, capacity)
  }

  /** The list has an entry with content for the location. */
  predicate Listed(es: seq<Entry>, l: nat) {
    exists i :: 0 <= i < |es| && es[i].location == l && es[i].items != []
  }

  lemma ListedTail(es: seq<Entry>, from: nat, top: nat)
    requires es != [] && Ascending(es, from, top)
    ensures forall l: nat :: l != es[0].location ==> (Listed(es, l) <==> Listed(es[1..], l))
    ensures Listed(es, es[0].location) <==> es[0].items != []
    ensures Ascending(es[1..], es[0].location + 1, top)
    ensures forall l: nat :: l < es[0].location ==> !Listed(es, l)
  {
    var rest := es[1..];
    forall l: nat | l != es[0].location
      ensures Listed(es, l) <==> Listed(rest, l)
    {
      if i :| 0 <= i < |es| && es[i].location == l && es[i].items != [] { assert rest[i - 1] == es[i]; }
      if i :| 0 <= i < |rest| && rest[i].location == l && rest[i].items != [] { assert es[i + 1] == rest[i]; }
    }
  }

  /** A pass over an ascending list ends without an error exactly if each location that the phone does not have is
      written to, which is passed over, and none has to be deleted. */
  lemma {:induction false} PassErrorIff(es: seq<Entry>, from: nat, total: nat, capacity: nat, top: nat)
    requires from <= total + 1 && Ascending(es, from, top)
    ensures PassError(es, from, total, capacity) in {ErrNone, ErrInvalidLocation}
    ensures PassError(es, from, total, capacity) == ErrNone <==>
            forall l: nat :: from <= l <= total && l > capacity ==> Listed(es, l)
    decreases total + 1 - from
  {
    hide Listed;
    if es == [] {
      NothingListed();
    } else {
      ListedTail(es, from, top);
    }
    if from <= total {
      var turn := es != [] && es[0].location == from;
      var rest := if turn then es[1..] else es;
      PassErrorIff(rest, from + 1, total, capacity, top);
      assert forall l: nat :: l > from ==> (Listed(es, l) <==> Listed(rest, l));
      assert Listed(es, from) <==> turn && es[0].items != [];
    }
  }

  lemma NothingListed()
    ensures forall l: nat :: !Listed([], l)
  {
  }

  lemma AscendingFrom(es: seq<Entry>, from: nat, total: nat)
    requires Ascending(es, from, total)
    ensures es != [] ==> from <= es[0].location <= total
    ensures es != [] && es[0].location > from ==> Ascending(es, from + 1, total)
    ensures es == [] ==> Ascending(es, from + 1, total)
  {
  }

  /** What a pass over an ascending list within the range leaves there: exactly the entries with content. */
  lemma {:induction false} MergedIff(es: seq<Entry>, from: nat, total: nat, l: nat)
    requires from <= total + 1 && Ascending(es, from, total)
    ensures l in Merged(es, from, total) <==> Listed(es, l)
    ensures l in Merged(es, from, total) ==>
              Merged(es, from, total)[l] in es && Merged(es, from, total)[l].location == l
    decreases total + 1 - from
  {
    hide Listed, Merged, Ascending;
    if es == [] {
      NothingListed();
    } else {
      ListedTail(es, from, total);
    }
    AscendingFrom(es, from, total);
    if from == total + 1 {
      MergedKeys(es, from, total);
    } else {
      MergedStep(es, from, total);
      if es != [] && es[0].location == from {
        var rest := es[1..];
        MergedKeys(rest, from + 1, total);
        MergedIff(rest, from + 1, total, l);
      } else {
        MergedIff(es, from + 1, total, l);
      }
    }
  }

  function Min(a: nat, b: nat): nat {
    if a <= b then a else b
  }

  /** A pass over the locations up to `total`, on a phone with `c` of them, has come to location `next`: the rest of
      it, from the memory as it is, leaves and ends as the whole pass does from `m`. */
  ghost predicate Passing(c: nat, memory: Memory, left: seq<Entry>, next: nat, m: Memory, es: seq<Entry>, total: nat)
    requires 1 <= next <= total + 1
  {
    && (next <= c + 1 ==> Pass(memory, left, next, Min(total, c)) == Pass(m, es, 1, Min(total, c)))
    && (next > c + 1 ==> memory == Pass(m, es, 1, Min(total, c)))
    && PassError(left, next, total, c) == PassError(es, 1, total, c)
  }

  /** One location: the entry whose turn it is is written, anything else deleted, as far as the phone has it. */
  lemma PassingStep(c: nat, memory: Memory, left: seq<Entry>, i: nat, m: Memory, es: seq<Entry>, total: nat)
    requires 1 <= i <= total && Passing(c, memory, left, i, m, es, total)
    ensures var turn := left != [] && left[0].location == i;
            var rest := if turn then left[1..] else left;
            var written := turn && left[0].items != [];
            && Reached(left, i, total) == (if turn then 1 else 0) + Reached(rest, i + 1, total)
            && (i <= c ==>
                  Passing(c, if written then memory[i := left[0]] else memory - {i}, rest, i + 1, m, es, total))
            && (i > c && written ==> Passing(c, memory, rest, i + 1, m, es, total))
            && (i > c && !written ==>
                  PassError(es, 1, total, c) == ErrInvalidLocation && memory == Pass(m, es, 1, Min(total, c)))
  {
  }

  lemma PassingEnds(c: nat, memory: Memory, left: seq<Entry>, m: Memory, es: seq<Entry>, total: nat)
    requires Passing(c, memory, left, total + 1, m, es, total)
    ensures memory == Pass(m, es, 1, Min(total, c)) && PassError(es, 1, total, c) == ErrNone
    ensures Reached(left, total + 1, total) == 0
  {
  }

  /** One pass over the phone's locations, writing the backup's entries and deleting everything else. */
  method RestorePass(phone: Phone, list: array<Option<Entry>>, max: nat, ghost es: seq<Entry>,
                     total: nat, memoryUsed: nat)
    returns (error: Error, used: nat)
    requires phone.Valid() && Holds(list, es) && |es| == max
    requires memoryUsed == 0 ==> phone.memory == map[] && total <= phone.capacity
    modifies phone
    ensures phone.Valid()
    ensures phone.memory == Pass(old(phone.memory), es, 1, Min(total, phone.capacity))
    ensures error == PassError(es, 1, total, phone.capacity)
    ensures error == ErrNone ==> used == Reached(es, 1, total)
  {
    hide Pass, PassError, Reached, Passing;
    used := 0;
    ghost var m, c := phone.memory, phone.capacity;
    assert es[0..] == es;
    PassStarts(c, m, es, total);
    for i := 0 to total
      invariant phone.Valid() && used <= max
      invariant memoryUsed == 0 ==> forall l <- phone.memory :: l <= i
      invariant Passing(c, phone.memory, es[used..], i + 1, m, es, total)
      invariant used + Reached(es[used..], i + 1, total) == Reached(es, 1, total)
    {
      ghost var before, left := phone.memory, es[used..];
      PassingStep(c, before, left, i + 1, m, es, total);
      var pbk := Entry(i + 1, []);
      if used < max && list[used].value.location == pbk.location {
        assert left[1..] == es[used + 1..];
        pbk := list[used].value;
        used := used + 1;
        if pbk.items != [] { error := phone.SetMemory(pbk); }
      }
      if pbk.items == [] {
        if memoryUsed > 0 {
          error := phone.DeleteMemory(i + 1);
          if error != ErrEmpty && error != ErrNone { return; }
        } else {
          assert before - {i + 1} == before;
        }
      }
    }
    PassingEnds(c, phone.memory, es[used..], m, es, total);
    error := ErrNone;
  }

  lemma PassStarts(c: nat, m: Memory, es: seq<Entry>, total: nat)
    ensures Passing(c, m, es, 1, m, es, total)
  {
  }

  /** Restores a phonebook from a backup's list. Nothing happens when the list is empty. A phone that cannot
      report its status is taken to have twice as many locations as the list has entries, if it has a first one. */
  method Restore(phone: Phone, list: array<Option<Entry>>, ghost es: seq<Entry>) returns (error: Error)
    requires phone.Valid() && Holds(list, es)
    modifies phone
    ensures phone.Valid()
    ensures phone.memory == RestoredMemory(old(phone.memory), es, phone.capacity, phone.statusSupported)
    ensures phone.statusSupported ==> error == ErrNone
    ensures es == [] ==> error == ErrNone
    ensures !phone.statusSupported && es != [] ==>
              error == if phone.capacity == 0 then ErrInvalidLocation else PassError(es, 1, 2 * |es|, phone.capacity)
  {
    if list[0] == None { return ErrNone; }
    var max := 0;
    while list[max] != None
      invariant 0 <= max <= |es|
      decreases |es| - max
    {
      max := max + 1;
    }
    var memoryUsed, memoryFree;
    error, memoryUsed, memoryFree := phone.GetMemoryStatus();
    if error != ErrNone {
      var probe;
      error, probe := phone.GetMemory(1);
      memoryUsed, memoryFree := max, max;
    }
    if error != ErrNone && error != ErrEmpty { return; }
    var used;
    error, used := RestorePass(phone, list, max, es, memoryUsed + memoryFree, memoryUsed);
    if phone.statusSupported {
      WithinNoError(es, 1, phone.capacity);
    }
  }

  lemma {:induction false} WithinNoError(es: seq<Entry>, from: nat, total: nat)
    requires from <= total + 1
    ensures PassError(es, from, total, total) == ErrNone
    decreases total + 1 - from
  {
    if from <= total {
      WithinNoError(if es != [] && es[0].location == from then es[1..] else es, from + 1, total);
    }
  }

  /** What a restore leaves in a phone. */
  function RestoredMemory(m: Memory, es: seq<Entry>, capacity: nat, statusSupported: bool): Memory {
    if es == [] then m else Pass(m, es, 1, if statusSupported then capacity else Min(2 * |es|, capacity))
  }

  // ----- Backup and restore together

  /** The pass reaches every entry of a list exactly when the list ascends strictly within the phone's locations. */
  lemma {:induction false} ReachedAllIff(es: seq<Entry>, from: nat, total: nat)
    requires from <= total + 1
    ensures Reached(es, from, total) == |es| <==> Ascending(es, from, total)
    decreases total + 1 - from
  {
    if from == total + 1 {
      if es != [] {
        assert !(from <= es[0].location <= total);
      }
    } else if es != [] && es[0].location == from {
      ReachedAllIff(es[1..], from + 1, total);
      AscendingTail(es, from, total);
    } else {
      ReachedAllIff(es, from + 1, total);
      assert Ascending(es, from + 1, total) <==> Ascending(es, from, total) by {
        if es != [] && Ascending(es, from, total) {
          assert es[0].location != from;
        }
      }
    }
  }

  lemma AscendingTail(es: seq<Entry>, from: nat, total: nat)
    requires es != [] && es[0].location == from <= total
    ensures Ascending(es, from, total) <==> Ascending(es[1..], from + 1, total)
  {
    if Ascending(es[1..], from + 1, total) {
      forall i, j | 0 <= i < j < |es|
        ensures es[i].location < es[j].location
      {
        assert es[j] == es[1..][j - 1];
        if i > 0 { assert es[i] == es[1..][i - 1]; }
      }
      forall i | 0 <= i < |es|
        ensures from <= es[i].location <= total
      {
        if i > 0 { assert es[i] == es[1..][i - 1]; }
      }
    }
  }

  /** The entries with content from location `from` on. */
  function WithContent(m: Memory, from: nat): Memory {
    map l | l in m && from <= l && m[l].items != [] :: m[l]
  }

  lemma WithContentStep(m: Memory, from: nat)
    ensures WithContent(m, from) ==
            if from in m && m[from].items != [] then WithContent(m, from + 1)[from := m[from]]
            else WithContent(m, from + 1)
  {
  }

  /** Merging the full list of a memory gives back the memory, except for entries without content. */
  lemma {:induction false} MergedEntries(m: Memory, from: nat, capacity: nat)
    requires 1 <= from <= capacity + 1 && ValidMemory(m, capacity)
    ensures Merged(Entries(m, from, capacity), from, capacity) == WithContent(m, from)
    decreases capacity + 1 - from
  {
    if from < capacity + 1 {
      MergedEntries(m, from + 1, capacity);
      MergedEntriesStep(m, from, capacity);
      WithContentStep(m, from);
    }
  }

  lemma MergedEntriesStep(m: Memory, from: nat, capacity: nat)
    requires 1 <= from <= capacity && ValidMemory(m, capacity)
    ensures var rest := Merged(Entries(m, from + 1, capacity), from + 1, capacity);
            Merged(Entries(m, from, capacity), from, capacity) ==
            if from in m && m[from].items != [] then rest[from := m[from]] else rest
  {
    hide Merged;
    var es, rest := Entries(m, from, capacity), Entries(m, from + 1, capacity);
    if from in m {
      assert es[1..] == rest && es[0] == m[from] && es[0].location == from;
    } else {
      assert es == rest;
      EntriesAscending(m, from + 1, capacity);
    }
    MergedStep(es, from, capacity);
  }

  /** Every location of a merged memory is one of the list's. */
  lemma {:induction false} MergedListed(es: seq<Entry>, from: nat, total: nat, l: nat) returns (i: nat)
    requires from <= total + 1 && l in Merged(es, from, total)
    ensures i < |es| && es[i].location == l
    decreases total + 1 - from
  {
    if es != [] && es[0].location == from {
      if l == from { return 0; }
      var j := MergedListed(es[1..], from + 1, total, l);
      return j + 1;
    }
    i := MergedListed(es, from + 1, total, l);
  }

  /** An entry beyond the backup's limit is not restored. */
  lemma TooManyLost(m: Memory, capacity: nat, maxEntries: nat)
    requires ValidMemory(m, capacity) && |Entries(m, 1, capacity)| > maxEntries
    ensures Merged(Backup(m, capacity, maxEntries), 1, capacity) != m
  {
    var all, es := Entries(m, 1, capacity), Backup(m, capacity, maxEntries);
    EntriesAscending(m, 1, capacity);
    EntriesListed(m, 1, capacity, maxEntries);
    var l := all[maxEntries].location;
    if l in Merged(es, 1, capacity) {
      var i := MergedListed(es, 1, capacity, l);
      assert false;
    }
  }

  lemma {:induction false} EntriesListed(m: Memory, from: nat, capacity: nat, i: nat)
    requires from <= capacity + 1 && ValidMemory(m, capacity) && i < |Entries(m, from, capacity)|
    ensures Entries(m, from, capacity)[i].location in m
    decreases capacity + 1 - from
  {
    if from in m {
      if i > 0 { EntriesListed(m, from + 1, capacity, i - 1); }
    } else {
      EntriesListed(m, from + 1, capacity, i);
    }
  }

  /** Restoring the backup of `m` over a phone that holds `m'` and reports its status. */
  function RoundTrip(m: Memory, m': Memory, capacity: nat, maxEntries: nat): Memory {
    RestoredMemory(m', Backup(m, capacity, maxEntries), capacity, true)
  }

  lemma RoundTripMerges(m: Memory, m': Memory, capacity: nat, maxEntries: nat)
    requires ValidMemory(m, capacity) && ValidMemory(m', capacity) && maxEntries > 0 && m != map[]
    ensures RoundTrip(m, m', capacity, maxEntries) == Merged(Backup(m, capacity, maxEntries), 1, capacity)
  {
    var es := Backup(m, capacity, maxEntries);
    EntriesCount(m, 1, capacity);
    assert |m| > 0 by {
      assert |m.Keys| == |m|;
      assert m.Keys != {};
    }
    PassMerges(m', es, 1, capacity);
    assert Outside(m', 1, capacity) == map[];
  }

  /** The restored phone equals the backed-up one exactly when everything fitted into the backup, every entry has
      content, and the backup is not empty (or the phone is): an empty backup restores nothing, so it does not
      clear a phone. */
  lemma RoundTripIff(m: Memory, m': Memory, capacity: nat, maxEntries: nat)
    requires ValidMemory(m, capacity) && ValidMemory(m', capacity) && maxEntries > 0
    ensures RoundTrip(m, m', capacity, maxEntries) == m <==>
            && |m| <= maxEntries
            && (forall l <- m :: m[l].items != [])
            && (m == map[] ==> m' == map[])
  {
    EntriesCount(m, 1, capacity);
    if m != map[] {
      RoundTripMerges(m, m', capacity, maxEntries);
      if |m| <= maxEntries {
        MergedEntries(m, 1, capacity);
        ContentIff(m, capacity);
      } else {
        TooManyLost(m, capacity, maxEntries);
      }
    }
  }

  lemma ContentIff(m: Memory, capacity: nat)
    requires ValidMemory(m, capacity)
    ensures WithContent(m, 1) == m <==> forall l <- m :: m[l].items != []
  {
    if WithContent(m, 1) == m {
      forall l <- m
        ensures m[l].items != []
      {
        assert l in WithContent(m, 1);
      }
    }
  }

  // ----- Restoring to a phone without a status query

  /** The memory up to location `total`. */
  function UpTo(m: Memory, total: nat): Memory {
    map l | l in m && l <= total :: m[l]
  }

  lemma {:induction false} EntriesSplit(m: Memory, from: nat, mid: nat, capacity: nat)
    requires from <= mid + 1 <= capacity + 1
    ensures Entries(m, from, capacity) == Entries(m, from, mid) + Entries(m, mid + 1, capacity)
    decreases mid + 1 - from
  {
    if from < mid + 1 {
      EntriesSplit(m, from + 1, mid, capacity);
    }
  }

  /** Entries beyond the range of a pass do not matter. */
  lemma {:induction false} MergedAhead(a: seq<Entry>, b: seq<Entry>, from: nat, total: nat)
    requires from <= total + 1 && forall i :: 0 <= i < |b| ==> b[i].location > total
    ensures Merged(a + b, from, total) == Merged(a, from, total)
    decreases total + 1 - from
  {
    if from < total + 1 {
      if a != [] && a[0].location == from {
        assert (a + b)[1..] == a[1..] + b;
        MergedAhead(a[1..], b, from + 1, total);
      } else {
        MergedAhead(a, b, from + 1, total);
      }
    }
  }

  /** What a pass over the first locations makes of a backup in which these locations' entries are all listed. */
  lemma MergedUpTo(m: Memory, total: nat, capacity: nat, maxEntries: nat)
    requires ValidMemory(m, capacity) && total <= capacity && |Entries(m, 1, total)| <= maxEntries
    ensures Merged(Backup(m, capacity, maxEntries), 1, total) == WithContent(UpTo(m, total), 1)
  {
    var a, b := Entries(m, 1, total), Entries(m, total + 1, capacity);
    EntriesSplit(m, 1, total, capacity);
    EntriesAscending(m, total + 1, capacity);
    var rest := Take(b, maxEntries - |a|);
    assert Backup(m, capacity, maxEntries) == a + rest;
    MergedAhead(a, rest, 1, total);
    EntriesRestrict(m, UpTo(m, total), 1, total);
    MergedEntries(UpTo(m, total), 1, total);
  }

  /** An entry within the range of the pass that is not in the backup is lost. */
  lemma LostWithin(m: Memory, total: nat, capacity: nat, maxEntries: nat) returns (l: nat)
    requires ValidMemory(m, capacity) && total <= capacity && |Entries(m, 1, total)| > maxEntries
    ensures 1 <= l <= total && l in m && l !in Merged(Backup(m, capacity, maxEntries), 1, total)
  {
    var a, es := Entries(m, 1, total), Backup(m, capacity, maxEntries);
    EntriesSplit(m, 1, total, capacity);
    assert es == a[..maxEntries];
    EntriesRestrict(m, UpTo(m, total), 1, total);
    EntriesAscending(UpTo(m, total), 1, total);
    EntriesListed(UpTo(m, total), 1, total, maxEntries);
    l := a[maxEntries].location;
    forall i | 0 <= i < |es|
      ensures es[i].location != l
    {
      assert es[i] == a[i];
    }
    if l in Merged(es, 1, total) {
      var i := MergedListed(es, 1, total, l);
      assert false;
    }
  }

  lemma MergeIff(m: Memory, m': Memory, total: nat, capacity: nat)
    requires ValidMemory(m, capacity) && ValidMemory(m', capacity)
    ensures Outside(m', 1, total) + WithContent(UpTo(m, total), 1) == m <==>
            (forall l <- m :: l <= total ==> m[l].items != []) && Outside(m, 1, total) == Outside(m', 1, total)
  {
    var inside, outside := WithContent(UpTo(m, total), 1), Outside(m', 1, total);
    var r := outside + inside;
    if r == m {
      forall l <- m | l <= total
        ensures m[l].items != []
      {
        assert l !in outside;
        assert l in inside;
      }
      assert Outside(m, 1, total) == outside;
    }
    if (forall l <- m :: l <= total ==> m[l].items != []) && Outside(m, 1, total) == outside {
      assert inside == UpTo(m, total);
      assert forall l <- m :: l > total ==> l in Outside(m, 1, total);
      assert forall l <- outside :: l in m && m[l] == outside[l];
      assert r == m;
    }
  }

  /** A pass over the first `total` locations gives the backed-up memory exactly when the entries there all have
      content and fitted into the backup, and the two memories already agree on the other locations. */
  lemma PassRoundTripIff(m: Memory, m': Memory, total: nat, capacity: nat, maxEntries: nat)
    requires ValidMemory(m, capacity) && ValidMemory(m', capacity) && total <= capacity
    ensures Pass(m', Backup(m, capacity, maxEntries), 1, total) == m <==>
            && |Entries(m, 1, total)| <= maxEntries
            && (forall l <- m :: l <= total ==> m[l].items != [])
            && Outside(m, 1, total) == Outside(m', 1, total)
  {
    var es := Backup(m, capacity, maxEntries);
    PassMerges(m', es, 1, total);
    if |Entries(m, 1, total)| <= maxEntries {
      MergedUpTo(m, total, capacity, maxEntries);
      MergeIff(m, m', total, capacity);
    } else {
      var l := LostWithin(m, total, capacity, maxEntries);
      assert l !in Outside(m', 1, total);
      assert l !in Pass(m', es, 1, total);
    }
  }

  /** A phone without a status query is restored over twice as many locations as the backup has entries, as far as it
      has them. The restored memory equals the backed-up one exactly when the entries among these locations all have
      content and fitted into the backup, and the two memories already agree elsewhere. */
  lemma FallbackRoundTripIff(m: Memory, m': Memory, capacity: nat, maxEntries: nat)
    requires ValidMemory(m, capacity) && ValidMemory(m', capacity)
    ensures var listed := if |m| <= maxEntries then |m| else maxEntries;
            var total := if 2 * listed <= capacity then 2 * listed else capacity;
            RestoredMemory(m', Backup(m, capacity, maxEntries), capacity, false) == m <==>
            && |Entries(m, 1, total)| <= maxEntries
            && (forall l <- m :: l <= total ==> m[l].items != [])
            && Outside(m, 1, total) == Outside(m', 1, total)
  {
    EntriesCount(m, 1, capacity);
    PassRoundTripIff(m, m', Min(2 * Min(|m|, maxEntries), capacity), capacity, maxEntries);
    assert |Backup(m, capacity, maxEntries)| == Min(|m|, maxEntries);
  }

  /** Such a restore ends with an error exactly if the phone has fewer locations than that. */
  lemma FallbackErrorIff(m: Memory, capacity: nat, maxEntries: nat)
    requires ValidMemory(m, capacity) && m != map[] && maxEntries > 0
    ensures var listed := if |m| <= maxEntries then |m| else maxEntries;
            && |Backup(m, capacity, maxEntries)| == listed > 0
            && (PassError(Backup(m, capacity, maxEntries), 1, 2 * listed, capacity) == ErrNone <==>
                2 * listed <= capacity)
  {
    var es := Backup(m, capacity, maxEntries);
    EntriesCount(m, 1, capacity);
    assert |m.Keys| == |m| && m.Keys != {};
    EntriesAscending(m, 1, capacity);
    PassErrorIff(es, 1, 2 * |es|, capacity, capacity);
    assert forall l: nat :: l > capacity ==> !Listed(es, l);
    if 2 * |es| > capacity {
      assert 1 <= capacity + 1 <= 2 * |es| && !Listed(es, capacity + 1);
    }
  }

  /** Backs one phone up and restores another of the same capacity. `read` says how the backup went, `error` how the
      restore did. */
  method BackupAndRestore(from: Phone, to: Phone, maxEntries: nat) returns (read: Error, error: Error)
    requires from.Valid() && to.Valid() && from != to && maxEntries > 0
    requires from.capacity == to.capacity
    modifies to
    ensures to.Valid()
    ensures read == ErrNone ==>
              to.memory == RestoredMemory(old(to.memory), Backup(from.memory, from.capacity, maxEntries), to.capacity,
                                          to.statusSupported)
    ensures read == ErrNone && from.memory != map[] && to.statusSupported ==>
              error == ErrNone
              && (to.memory == from.memory <==>
                  |from.memory| <= maxEntries && forall l <- from.memory :: from.memory[l].items != [])
    ensures read == ErrNone && !to.statusSupported ==>
              (to.memory == from.memory <==>
               var listed := if |from.memory| <= maxEntries then |from.memory| else maxEntries;
               var total := if 2 * listed <= to.capacity then 2 * listed else to.capacity;
               && |Entries(from.memory, 1, total)| <= maxEntries
               && (forall l <- from.memory :: l <= total ==> from.memory[l].items != [])
               && Outside(from.memory, 1, total) == old(Outside(to.memory, 1, total)))
    ensures read == ErrNone && !to.statusSupported && from.memory != map[] ==>
              (error == ErrNone <==>
               2 * (if |from.memory| <= maxEntries then |from.memory| else maxEntries) <= to.capacity)
    ensures read == ErrNone && from.memory == map[] ==> to.memory == old(to.memory) && error == ErrNone
    ensures read != ErrNone ==> to.memory == old(to.memory)
  {
    var list := new Option<Entry>[maxEntries + 1](_ => None);
    read := ReadPhonebook(from, list, maxEntries);
    error := read;
    if read != ErrNone { return; }
    ghost var es := Backup(from.memory, from.capacity, maxEntries);
    RoundTripIff(from.memory, to.memory, from.capacity, maxEntries);
    FallbackRoundTripIff(from.memory, to.memory, from.capacity, maxEntries);
    EntriesCount(from.memory, 1, from.capacity);
    if from.memory != map[] {
      FallbackErrorIff(from.memory, from.capacity, maxEntries);
    }
    error := Restore(to, list, es);
  }
}
