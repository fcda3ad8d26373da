/** Making a playlist: sorting a linked list of songs in place, finding a free file name, writing the file. */
module Playlist {
  import opened Numerals

  // ----- Comparing names

  /** strcmp(a, b) > 0 */
  predicate Greater(a: string, b: string) {
    if a == [] then false
    else if b == [] then true
    else if a[0] != b[0] then a[0] > b[0]
    else Greater(a[1..], b[1..])
  }

  lemma {:induction false} GreaterAsymmetric(a: string, b: string)
    ensures Greater(a, b) ==> !Greater(b, a) && a != b
  {
    if a != [] && b != [] && a[0] == b[0] {
      GreaterAsymmetric(a[1..], b[1..]);
    }
  }

  lemma {:induction false} GreaterTotal(a: string, b: string)
    requires !Greater(a, b) && !Greater(b, a)
    ensures a == b
  {
    if a != [] && b != [] {
      GreaterTotal(a[1..], b[1..]);
      assert a == [a[0]] + a[1..] && b == [b[0]] + b[1..];
    }
  }

  lemma {:induction false} NotGreaterTransitive(a: string, b: string, c: string)
    requires !Greater(a, b) && !Greater(b, c)
    ensures !Greater(a, c)
  {
    if a != [] && b != [] && c != [] && a[0] == b[0] == c[0] {
      NotGreaterTransitive(a[1..], b[1..], c[1..]);
    }
  }

  /** The strings agree before position `k`, and there the first one has a larger character or goes on alone. */
  predicate ExceedsAt(a: string, b: string, k: nat) {
    k < |a| && k <= |b| && a[..k] == b[..k] && (k == |b| || a[k] > b[k])
  }

  /** The first string comes behind the second one in dictionary order. */
  ghost predicate Exceeds(a: string, b: string) {
    exists k: nat :: ExceedsAt(a, b, k)
  }

  lemma {:induction false} GreaterIff(a: string, b: string)
    ensures Greater(a, b) <==> Exceeds(a, b)
  {
    if a != [] && (b == [] || a[0] != b[0]) {
      assert Greater(a, b) ==> ExceedsAt(a, b, 0);
      assert forall k: nat :: k > 0 && ExceedsAt(a, b, k) ==> b != [] && a[..k][0] == b[..k][0];
    } else if a != [] {
      GreaterIff(a[1..], b[1..]);
      if k: nat :| ExceedsAt(a[1..], b[1..], k) {
        assert a[..k + 1] == [a[0]] + a[1..][..k] && b[..k + 1] == [b[0]] + b[1..][..k];
        assert ExceedsAt(a, b, k + 1);
      }
      if k: nat :| ExceedsAt(a, b, k) {
        assert k > 0;
        assert a[1..][..k - 1] == a[..k][1..] && b[1..][..k - 1] == b[..k][1..];
        assert ExceedsAt(a[1..], b[1..], k - 1);
      }
    }
  }

  // ----- Songs as values

  /** A song's name and the lower-case form it is sorted by. */
  datatype Song = Song(name: string, nameUP: string)

  predicate Sorted(s: seq<Song>) {
    forall i, j :: 0 <= i < j < |s| ==> !Greater(s[i].nameUP, s[j].nameUP)
  }

  /** The songs with a given key, in the order in which they appear. */
  function WithKey(s: seq<Song>, key: string): seq<Song> {
    if s == [] then []
    else (if s[0].nameUP == key then [s[0]] else []) + WithKey(s[1..], key)
  }

  ghost predicate SameByKey(s: seq<Song>, t: seq<Song>) {
    forall key :: WithKey(s, key) == WithKey(t, key)
  }

  function SwapAt(s: seq<Song>, k: nat): seq<Song>
    requires k + 1 < |s|
  {
    s[k := s[k + 1]][k + 1 := s[k]]
  }

  lemma {:induction false} SwapKeepsKey(s: seq<Song>, k: nat, key: string)
    requires k + 1 < |s| && s[k].nameUP != s[k + 1].nameUP
    ensures WithKey(SwapAt(s, k), key) == WithKey(s, key)
  {
    var t := SwapAt(s, k);
    if k == 0 {
      assert t[1..][1..] == s[1..][1..];
    } else {
      assert t[1..] == SwapAt(s[1..], k - 1);
      SwapKeepsKey(s[1..], k - 1, key);
    }
  }

  /** How many songs of `s` sort before `x`. */
  function CountBelow(x: string, s: seq<Song>): nat {
    if s == [] then 0 else (if Greater(x, s[0].nameUP) then 1 else 0) + CountBelow(x, s[1..])
  }

  /** The number of pairs out of order. */
  function Inversions(s: seq<Song>): nat {
    if s == [] then 0 else CountBelow(s[0].nameUP, s[1..]) + Inversions(s[1..])
  }

  lemma {:induction false} SwapKeepsCount(x: string, s: seq<Song>, k: nat)
    requires k + 1 < |s|
    ensures CountBelow(x, SwapAt(s, k)) == CountBelow(x, s)
  {
    var t := SwapAt(s, k);
    if k == 0 {
      assert t[1..][1..] == s[1..][1..];
    } else {
      assert t[1..] == SwapAt(s[1..], k - 1);
      SwapKeepsCount(x, s[1..], k - 1);
    }
  }

  /** Swapping neighbours that are out of order removes exactly one inversion. */
  lemma {:induction false} SwapRemovesInversion(s: seq<Song>, k: nat)
    requires k + 1 < |s| && Greater(s[k].nameUP, s[k + 1].nameUP)
    ensures Inversions(SwapAt(s, k)) == Inversions(s) - 1
  {
    var t := SwapAt(s, k);
    if k == 0 {
      assert t[1..][1..] == s[1..][1..];
      GreaterAsymmetric(s[0].nameUP, s[1].nameUP);
    } else {
      assert t[1..] == SwapAt(s[1..], k - 1);
      SwapKeepsCount(s[0].nameUP, s[1..], k - 1);
      SwapRemovesInversion(s[1..], k - 1);
    }
  }

  lemma {:induction false} WithKeyMultiset(s: seq<Song>, x: Song)
    ensures multiset(s)[x] == multiset(WithKey(s, x.nameUP))[x]
  {
    if s != [] {
      assert s == [s[0]] + s[1..];
      WithKeyMultiset(s[1..], x);
    }
  }

  lemma SameByKeyPermutation(s: seq<Song>, t: seq<Song>)
    requires SameByKey(s, t)
    ensures multiset(s) == multiset(t)
  {
    forall x: Song
      ensures multiset(s)[x] == multiset(t)[x]
    {
      WithKeyMultiset(s, x);
      WithKeyMultiset(t, x);
    }
  }

  lemma {:induction false} WithKeyMember(s: seq<Song>, key: string)
    requires WithKey(s, key) != []
    ensures exists i :: 0 <= i < |s| && s[i].nameUP == key
  {
    if s[0].nameUP != key {
      WithKeyMember(s[1..], key);
      var i :| 0 <= i < |s[1..]| && s[1..][i].nameUP == key;
      assert s[i + 1].nameUP == key;
    } else {
      assert s[0].nameUP == key;
    }
  }

  lemma FirstKeyNotGreater(s: seq<Song>, t: seq<Song>)
    requires Sorted(s) && s != [] && t != [] && SameByKey(s, t)
    ensures !Greater(s[0].nameUP, t[0].nameUP)
  {
    var key := t[0].nameUP;
    assert WithKey(t, key)[0] == t[0];
    assert WithKey(s, key) != [];
    WithKeyMember(s, key);
    var i :| 0 <= i < |s| && s[i].nameUP == key;
    if i == 0 {
      GreaterAsymmetric(key, key);
    }
  }

  lemma WithKeyTail(s: seq<Song>, key: string)
    requires s != []
    ensures WithKey(s[1..], key) == WithKey(s, key)[if s[0].nameUP == key then 1 else 0..]
  {
  }

  /** There is only one stable sorting: the sorted list with the same songs in the same order under every key. */
  lemma {:induction false} StableSortUnique(s: seq<Song>, t: seq<Song>)
    requires Sorted(s) && Sorted(t) && SameByKey(s, t)
    ensures s == t
  {
    SameByKeyPermutation(s, t);
    assert |multiset(s)| == |s| && |multiset(t)| == |t|;
    if s != [] {
      FirstKeyNotGreater(s, t);
      FirstKeyNotGreater(t, s);
      GreaterTotal(s[0].nameUP, t[0].nameUP);
      var key := s[0].nameUP;
      assert WithKey(s, key)[0] == s[0] && WithKey(t, key)[0] == t[0];
      forall k: string
        ensures WithKey(s[1..], k) == WithKey(t[1..], k)
      {
        assert WithKey(s, k) == WithKey(t, k);
        WithKeyTail(s, k);
        WithKeyTail(t, k);
      }
      StableSortUnique(s[1..], t[1..]);
      assert s == [s[0]] + s[1..] && t == [t[0]] + t[1..];
    }
  }

  // ----- The linked list

  class Entry {
    var name: string
    var nameUP: string
    var next: Entry?

    constructor (name: string, nameUP: string, next: Entry?)
      ensures this.name == name && this.nameUP == nameUP && this.next == next
    {
      this.name, this.nameUP, this.next := name, nameUP, next;
    }
  }

  ghost function At(nodes: seq<Entry>, i: nat): Entry? {
    if i < |nodes| then nodes[i] else null
  }

  /** `nodes` are the entries of the list that starts at `first`, in order. */
  ghost predicate IsList(first: Entry, nodes: seq<Entry>)
    reads nodes
  {
    && nodes != [] && nodes[0] == first
    && (forall i, j :: 0 <= i < j < |nodes| ==> nodes[i] != nodes[j])
    && (forall i {:trigger nodes[i].next} :: 0 <= i < |nodes| ==> nodes[i].next == At(nodes, i + 1))
  }

  ghost function Songs(nodes: seq<Entry>): (s: seq<Song>)
    reads nodes
    ensures |s| == |nodes|
    ensures forall i :: 0 <= i < |s| ==> s[i] == Song(nodes[i].name, nodes[i].nameUP)
  {
    seq(|nodes|, i requires 0 <= i < |nodes| reads nodes => Song(nodes[i].name, nodes[i].nameUP))
  }

  /** Exchanges the songs of two neighbouring entries; the links stay as they are. */
  method SwapSongs(entry: Entry, ghost first: Entry, ghost nodes: seq<Entry>, ghost k: nat)
    requires IsList(first, nodes) && k + 1 < |nodes| && nodes[k] == entry
    modifies entry, nodes[k + 1]
    ensures IsList(first, nodes)
    ensures Songs(nodes) == SwapAt(old(Songs(nodes)), k)
  {
    var follow := entry.next;
    var pointer := follow.name;
    follow.name := entry.name;
    entry.name := pointer;
    pointer := follow.nameUP;
    follow.nameUP := entry.nameUP;
    entry.nameUP := pointer;
    assert Songs(nodes) == SwapAt(old(Songs(nodes)), k);
  }

  lemma {:induction false} SortedFromNeighbours(s: seq<Song>, i: nat, j: nat)
    requires forall k :: 0 <= k < |s| - 1 ==> !Greater(s[k].nameUP, s[k + 1].nameUP)
    requires i < j < |s|
    ensures !Greater(s[i].nameUP, s[j].nameUP)
    decreases j - i
  {
    if j > i + 1 {
      SortedFromNeighbours(s, i, j - 1);
      NotGreaterTransitive(s[i].nameUP, s[j - 1].nameUP, s[j].nameUP);
    }
  }

  /** The first `k` neighbours are in order. */
  predicate NeighboursSorted(s: seq<Song>, k: nat) {
    k < |s| && forall i :: 0 <= i < k ==> !Greater(s[i].nameUP, s[i + 1].nameUP)
  }

  lemma SortedWhenDone(s: seq<Song>, k: nat)
    requires NeighboursSorted(s, k) && k == |s| - 1
    ensures Sorted(s)
  {
    forall i, j | 0 <= i < j < |s|
      ensures !Greater(s[i].nameUP, s[j].nameUP)
    {
      SortedFromNeighbours(s, i, j);
    }
  }

  /** No song of a sorted list comes behind a later one in dictionary order. */
  lemma SortedInOrder(s: seq<Song>)
    ensures Sorted(s) <==> forall i, j :: 0 <= i < j < |s| ==> !Exceeds(s[i].nameUP, s[j].nameUP)
  {
    forall i, j | 0 <= i < j < |s|
      ensures Greater(s[i].nameUP, s[j].nameUP) <==> Exceeds(s[i].nameUP, s[j].nameUP)
    {
      GreaterIff(s[i].nameUP, s[j].nameUP);
    }
  }

  lemma SwapStep(s: seq<Song>, k: nat)
    requires k + 1 < |s| && Greater(s[k].nameUP, s[k + 1].nameUP)
    ensures Inversions(SwapAt(s, k)) < Inversions(s) && SameByKey(SwapAt(s, k), s)
  {
    SwapRemovesInversion(s, k);
    GreaterAsymmetric(s[k].nameUP, s[k + 1].nameUP);
    forall key: string
      ensures WithKey(SwapAt(s, k), key) == WithKey(s, key)
    {
      SwapKeepsKey(s, k, key);
    }
  }

  /** Sorts by swapping the first neighbours found out of order and starting again from the head. The
      inversions left bound the number of restarts. Names travel with their keys, and equal keys keep their order. */
  method SortSongs(first: Entry, ghost nodes: seq<Entry>)
    requires IsList(first, nodes)
    modifies nodes
    ensures IsList(first, nodes)
    ensures Sorted(Songs(nodes)) && SameByKey(Songs(nodes), old(Songs(nodes)))
    ensures forall i, j :: 0 <= i < j < |nodes| ==> !Exceeds(nodes[i].nameUP, nodes[j].nameUP)
    ensures multiset(Songs(nodes)) == multiset(old(Songs(nodes)))
  {
    var entry := first;
    ghost var k := 0;
    while entry.next != null
      invariant IsList(first, nodes) && 0 <= k < |nodes| && entry == nodes[k]
      invariant entry.next == At(nodes, k + 1)
      invariant NeighboursSorted(Songs(nodes), k)
      invariant SameByKey(Songs(nodes), old(Songs(nodes)))
      decreases Inversions(Songs(nodes)), |nodes| - k
    {
      if Greater(entry.nameUP, entry.next.nameUP) {
        ghost var s := Songs(nodes);
        SwapSongs(entry, first, nodes, k);
        SwapStep(s, k);
        entry := first;
        k := 0;
        continue;
      }
      entry := entry.next;
      k := k + 1;
    }
    SortedWhenDone(Songs(nodes), k);
    SortedInOrder(Songs(nodes));
    SameByKeyPermutation(Songs(nodes), old(Songs(nodes)));
  }

  // ----- A free file name

  /** The name tried in round `i`: a number is added from the second round on. */
  function Candidate(base: string, i: nat): string {
    base + (if i == 0 then "" else Decimal(i)) + ".m3u"
  }

  /** Equal up to case, for the phone's notion of case. */
  predicate SameName(lower: char -> char, a: string, b: string) {
    |a| == |b| && forall i :: 0 <= i < |a| ==> lower(a[i]) == lower(b[i])
  }

  function Lowered(lower: char -> char, s: string): string {
    seq(|s|, i requires 0 <= i < |s| => lower(s[i]))
  }

  /** No file of the folder has this name, up to case. */
  predicate Free(lower: char -> char, name: string, listing: seq<Listed>) {
    forall k :: 0 <= k < |listing| && !listing[k].folder ==> Lowered(lower, listing[k].name) != Lowered(lower, name)
  }

  lemma SameNameIff(lower: char -> char, a: string, b: string)
    ensures SameName(lower, a, b) <==> Lowered(lower, b) == Lowered(lower, a)
  {
    if Lowered(lower, b) == Lowered(lower, a) {
      assert |a| == |Lowered(lower, a)| && |b| == |Lowered(lower, b)|;
      forall i | 0 <= i < |a|
        ensures lower(a[i]) == lower(b[i])
      {
        assert Lowered(lower, a)[i] == Lowered(lower, b)[i];
      }
    }
  }

  lemma TakenIff(lower: char -> char, name: string, listing: seq<Listed>)
    ensures Taken(lower, name, listing) <==> !Free(lower, name, listing)
  {
    forall i | 0 <= i < |listing|
      ensures SameName(lower, name, listing[i].name) <==> Lowered(lower, listing[i].name) == Lowered(lower, name)
    {
      SameNameIff(lower, name, listing[i].name);
    }
  }

  ghost predicate KeepsDigits(lower: char -> char) {
    forall c, d :: '0' <= c <= '9' && '0' <= d <= '9' && lower(c) == lower(d) ==> c == d
  }

  /** Different rounds try names that differ even without regard to case. */
  lemma CandidatesDiffer(lower: char -> char, base: string, i: nat, j: nat)
    requires KeepsDigits(lower) && SameName(lower, Candidate(base, i), Candidate(base, j))
    ensures i == j
  {
    var a, b := Candidate(base, i), Candidate(base, j);
    var x, y := if i == 0 then "" else Decimal(i), if j == 0 then "" else Decimal(j);
    assert |x| == |y|;
    forall k | 0 <= k < |x|
      ensures x[k] == y[k]
    {
      assert a[|base| + k] == x[k] && b[|base| + k] == y[k];
    }
    assert x == y;
    if i != 0 && j != 0 {
      DecimalInjective(i, j);
    }
  }

  /** One entry of a folder listing. */
  datatype Listed = Listed(name: string, folder: bool)

  predicate Taken(lower: char -> char, name: string, listing: seq<Listed>) {
    exists i :: 0 <= i < |listing| && !listing[i].folder && SameName(lower, name, listing[i].name)
  }

  lemma {:induction false} DistinctBelow(s: seq<nat>, m: nat)
    requires forall i :: 0 <= i < |s| ==> s[i] < m
    requires forall i, j :: 0 <= i < j < |s| ==> s[i] != s[j]
    ensures |s| <= m
    decreases m
  {
    if s == [] {
    } else {
      assert 0 <= s[0] < m;
      if exists i :: 0 <= i < |s| && s[i] == m - 1 {
        var i :| 0 <= i < |s| && s[i] == m - 1;
        var t := s[..i] + s[i + 1..];
        assert forall k :: 0 <= k < |t| ==> t[k] == s[if k < i then k else k + 1];
        DistinctBelow(t, m - 1);
      } else {
        DistinctBelow(s, m - 1);
      }
    }
  }

  lemma {:induction false} Holders(lower: char -> char, base: string, listing: seq<Listed>, n: nat)
    returns (at: seq<nat>)
    requires forall j :: 0 <= j < n ==> Taken(lower, Candidate(base, j), listing)
    ensures |at| == n
    ensures forall j :: 0 <= j < n ==>
              at[j] < |listing| && SameName(lower, Candidate(base, j), listing[at[j]].name)
  {
    if n == 0 {
      at := [];
    } else {
      at := Holders(lower, base, listing, n - 1);
      assert Taken(lower, Candidate(base, n - 1), listing);
      var i :| 0 <= i < |listing| && !listing[i].folder
            && SameName(lower, Candidate(base, n - 1), listing[i].name);
      at := at + [i];
    }
  }

  /** A folder cannot hold more candidates than it has entries. */
  lemma Pigeonhole(lower: char -> char, base: string, listing: seq<Listed>, n: nat)
    requires KeepsDigits(lower)
    requires forall j :: 0 <= j < n ==> Taken(lower, Candidate(base, j), listing)
    ensures n <= |listing|
  {
    var at := Holders(lower, base, listing, n);
    forall i, j | 0 <= i < j < |at|
      ensures at[i] != at[j]
    {
      if at[i] == at[j] {
        assert SameName(lower, Candidate(base, i), Candidate(base, j));
        CandidatesDiffer(lower, base, i, j);
      }
    }
    DistinctBelow(at, |listing|);
  }

  /** Tries candidate after candidate against the folder's listing. It ends within one round more than the
      folder has entries, with the first candidate that is not taken. */
  method FreeName(lower: char -> char, base: string, listing: seq<Listed>) returns (name: string, i: nat)
    requires KeepsDigits(lower)
    ensures name == Candidate(base, i) == base + (if i == 0 then "" else Decimal(i)) + ".m3u"
    ensures Free(lower, name, listing)
    ensures forall j :: 0 <= j < i ==> !Free(lower, Candidate(base, j), listing)
    ensures i <= |listing|
  {
    i := 0;
    forall n: string
      ensures Taken(lower, n, listing) <==> !Free(lower, n, listing)
    {
      TakenIff(lower, n, listing);
    }
    while true
      invariant forall j :: 0 <= j < i ==> Taken(lower, Candidate(base, j), listing)
      decreases |listing| - i
    {
      name := base;
      if i != 0 {
        name := name + Decimal(i);
      }
      name := name + ".m3u";
      assert name == Candidate(base, i) by {
        assert base + "" == base;
      }
      Pigeonhole(lower, base, listing, i);
      var available := false;
      var at := 0;
      while at < |listing| && !available
        invariant 0 <= at <= |listing|
        invariant available ==> Taken(lower, name, listing)
        invariant !available ==>
                    forall k :: 0 <= k < at ==> listing[k].folder || !SameName(lower, name, listing[k].name)
        decreases |listing| - at, !available
      {
        if !listing[at].folder && SameName(lower, name, listing[at].name) {
          available := true;
        } else {
          at := at + 1;
        }
      }
      if !available { return; }
      Pigeonhole(lower, base, listing, i + 1);
      i := i + 1;
    }
  }

  // ----- The playlist file

  const EOL: string := "\r\n"

  function Names(s: seq<Song>): seq<string> {
    seq(|s|, i requires 0 <= i < |s| => s[i].name)
  }

  /** Each line with a line end before it. */
  function Preceded(lines: seq<string>): string {
    if lines == [] then "" else "\r\n" + lines[0] + Preceded(lines[1..])
  }

  function Ended(lines: seq<string>): string {
    if lines == [] then "" else Ended(lines[..|lines| - 1]) + lines[|lines| - 1] + EOL
  }

  lemma {:induction false} PrecededSnoc(lines: seq<string>, line: string)
    ensures Preceded(lines + [line]) == Preceded(lines) + "\r\n" + line
  {
    if lines == [] {
      assert [line][1..] == [] && [] + [line] == [line];
    } else {
      assert (lines + [line])[1..] == lines[1..] + [line];
      PrecededSnoc(lines[1..], line);
    }
  }

  /** Line ends before or behind the lines: only the first and the last one differ. */
  lemma {:induction false} EndedPreceded(lines: seq<string>)
    ensures EOL + Ended(lines) == Preceded(lines) + EOL
  {
    if lines != [] {
      var init, last := lines[..|lines| - 1], lines[|lines| - 1];
      assert lines == init + [last];
      EndedPreceded(init);
      PrecededSnoc(init, last);
      assert EOL + (Ended(init) + last + EOL) == EOL + Ended(init) + last + EOL;
    }
  }

  const HEADER: string := "#EXTM3U" + EOL

  lemma EndedSnoc(lines: seq<string>, line: string)
    ensures Ended(lines + [line]) == Ended(lines) + line + EOL
  {
    assert (lines + [line])[..|lines|] == lines;
  }

  method WriteLines(first: Entry, ghost nodes: seq<Entry>) returns (buffer: string)
    requires IsList(first, nodes)
    ensures buffer == HEADER + Ended(Names(Songs(nodes)))
  {
    ghost var names := Names(Songs(nodes));
    buffer := HEADER;
    var entry: Entry? := first;
    ghost var k := 0;
    while entry != null
      invariant 0 <= k <= |nodes| && entry == At(nodes, k)
      invariant IsList(first, nodes) && Names(Songs(nodes)) == names
      invariant buffer == HEADER + Ended(names[..k])
      decreases |nodes| - k
    {
      ghost var before := Ended(names[..k]);
      EndedSnoc(names[..k], entry.name);
      assert names[..k + 1] == names[..k] + [entry.name];
      buffer := buffer + (entry.name + EOL);
      assert buffer == HEADER + (before + entry.name + EOL);
      assert nodes[k].next == At(nodes, k + 1);
      entry := entry.next;
      k := k + 1;
    }
    assert names[..k] == names;
  }

  method TurnSlashes(s: string) returns (t: string)
    ensures |t| == |s| && forall i :: 0 <= i < |s| ==> t[i] == if s[i] == '/' then '\\' else s[i]
  {
    t := s;
    for i := 0 to |s|
      invariant |t| == |s|
      invariant forall j :: 0 <= j < |s| ==> t[j] == if j < i && s[j] == '/' then '\\' else s[j]
    {
      if t[i] == '/' {
        t := t[i := '\\'];
      }
    }
  }

  /** Writes the header and one line a song, takes the last line end off, and turns slashes around. */
  method WritePlaylist(first: Entry, ghost nodes: seq<Entry>) returns (file: string)
    requires IsList(first, nodes)
    ensures var text := "#EXTM3U" + Preceded(Names(Songs(nodes)));
            |file| == |text| && forall k :: 0 <= k < |text| ==> file[k] == if text[k] == '/' then '\\' else text[k]
  {
    var buffer := WriteLines(first, nodes);
    ghost var names := Names(Songs(nodes));
    EndedPreceded(names);
    assert HEADER + Ended(names) == "#EXTM3U" + (EOL + Ended(names));
    var used := |buffer| - 2;
    assert buffer[..used] == "#EXTM3U" + Preceded(names);
    file := TurnSlashes(buffer[..used]);
  }

  /** The playlist for a folder's songs: the least free name, and the songs in sorted order. */
  method AddPlaylist(first: Entry, ghost nodes: seq<Entry>, lower: char -> char, base: string, listing: seq<Listed>)
    returns (name: string, file: string, ghost i: nat)
    requires IsList(first, nodes) && KeepsDigits(lower)
    modifies nodes
    ensures SameByKey(Songs(nodes), old(Songs(nodes))) && multiset(Songs(nodes)) == multiset(old(Songs(nodes)))
    ensures forall j, k :: 0 <= j < k < |nodes| ==> !Exceeds(nodes[j].nameUP, nodes[k].nameUP)
    ensures name == Candidate(base, i) == base + (if i == 0 then "" else Decimal(i)) + ".m3u"
    ensures Free(lower, name, listing)
    ensures forall j :: 0 <= j < i ==> !Free(lower, Candidate(base, j), listing)
    ensures var text := "#EXTM3U" + Preceded(Names(Songs(nodes)));
            |file| == |text| && forall k :: 0 <= k < |text| ==> file[k] == if text[k] == '/' then '\\' else text[k]
  {
    SortSongs(first, nodes);
    name, i := FreeName(lower, base, listing);
    file := WritePlaylist(first, nodes);
  }
}
