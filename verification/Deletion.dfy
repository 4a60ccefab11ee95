/** Deleting cache files: a directory is removed only when every child is
    expected and unchanged, child by child in name order, so that a crash at any
    point leaves a state from which the same deletion completes. */
module CacheDeletion {
  import opened Wrappers
  import opened CacheRecords
  import opened CacheCandidates

  /** What a file holds, as far as deletion reads it. */
  datatype Data =
    | EntryManifest(entryId: string, blobId: string, blobSize: int)
    | MaterializationManifest(materializationId: string, sourceEntryId: string, baselineBlobId: string,
      contentId: string, contentSize: int)
    | Content(digest: string, size: int)

  /** `stamp` stands for the strict identity of a file: inode, size, mode and
      times. `private` stands for the ownership, mode and link-count checks. */
  datatype File = File(stamp: int, private: bool, data: Data)

  /** A directory path: nothing there, or children by name. */
  datatype Directory = Absent | Present(private: bool, children: map<string, File>)

  /** Blob files by identifier, with the digest and size found by reading them. */
  type Blobs = map<string, (string, int)>

  const MANIFEST := "manifest-v1.json"
  const CONTENT := "content"

  datatype BlobIdentity = BlobIdentity(id: string, size: int)

  // ----- Listing -----

  ghost predicate Ascending(names: seq<string>) {
    forall i, j | 0 <= i < j < |names| :: StringLess(names[i], names[j])
  }

  ghost function NameSet(names: seq<string>): set<string> { set n | n in names }

  method InsertName(sorted: seq<string>, name: string) returns (r: seq<string>)
    requires Ascending(sorted) && name !in sorted
    ensures Ascending(r) && NameSet(r) == NameSet(sorted) + {name}
  {
    var i := 0;
    while i < |sorted| && StringLess(sorted[i], name)
      invariant i <= |sorted|
      invariant forall j | 0 <= j < i :: StringLess(sorted[j], name)
    {
      i := i + 1;
    }
    r := sorted[..i] + [name] + sorted[i..];
    assert sorted == sorted[..i] + sorted[i..];
    forall j | i <= j < |sorted| ensures StringLess(name, sorted[j]) {
      StringLessOrder(name, sorted[i], sorted[j]);
      assert sorted[i] in sorted;
    }
  }

  /** A directory listing is sorted by name. */
  method ReadDir(children: map<string, File>) returns (names: seq<string>)
    ensures Ascending(names) && NameSet(names) == children.Keys
  {
    names := [];
    var rest := children.Keys;
    while rest != {}
      invariant rest <= children.Keys && Ascending(names) && NameSet(names) == children.Keys - rest
      decreases |rest|
    {
      var name :| name in rest;
      assert name !in NameSet(names);
      names := InsertName(names, name);
      rest := rest - {name};
    }
  }

  /** A listing has no repetitions. */
  lemma {:induction false} ListingSize(names: seq<string>)
    requires Ascending(names)
    ensures |names| == |NameSet(names)|
  {
    if names != [] {
      var n := |names| - 1;
      ListingSize(names[..n]);
      AscendingDistinct(names, n);
      assert names == names[..n] + [names[n]];
      assert NameSet(names) == NameSet(names[..n]) + {names[n]};
    }
  }

  lemma ListingOfOne(names: seq<string>, a: string)
    requires Ascending(names) && NameSet(names) == {a}
    ensures names == [a]
  {
    ListingSize(names);
    assert names[0] in NameSet(names);
  }

  lemma ListingOfTwo(names: seq<string>, a: string, b: string)
    requires Ascending(names) && NameSet(names) == {a, b} && StringLess(a, b)
    ensures names == [a, b]
  {
    StringLessOrder(a, b, a);
    StringLessOrder(b, b, b);
    ListingSize(names);
    assert |{a, b}| == 2;
    assert names[0] in NameSet(names) && names[1] in NameSet(names);
    assert StringLess(names[0], names[1]);
  }

  lemma ContentBeforeManifest()
    ensures StringLess(CONTENT, MANIFEST) && CONTENT != MANIFEST
  {
    assert CONTENT[0] == 'c' && MANIFEST[0] == 'm';
  }

  // ----- Removal -----

  ghost function Drop(children: map<string, File>, names: seq<string>): map<string, File> {
    children - NameSet(names)
  }

  /** The states a removal passes through: one child less each time, then nothing. */
  ghost function RemovalStates(d: Directory, names: seq<string>): seq<Directory>
    requires d.Present?
  {
    PartialStates(d, names, |names|) + [Absent]
  }

  ghost function PartialStates(d: Directory, names: seq<string>, n: nat): seq<Directory>
    requires d.Present? && n <= |names|
  {
    if n == 0 then [] else PartialStates(d, names, n - 1) + [d.(children := Drop(d.children, names[..n]))]
  }

  /** Every child is private, expected, and still the file that was examined. */
  predicate Known(d: Directory, expected: map<string, File>)
    requires d.Present?
  {
    d.private && forall n | n in d.children ::
      n in expected && d.children[n].private && d.children[n].stamp == expected[n].stamp
  }

  class Slot {
    var state: Directory
    ghost var visited: seq<Directory>

    constructor (d: Directory)
      ensures state == d && visited == []
    {
      state, visited := d, [];
    }

    method RemoveFile(name: string)
      requires state.Present? && name in state.children
      modifies this
      ensures state == old(state).(children := old(state).children - {name}) && visited == old(visited) + [state]
    {
      state := state.(children := state.children - {name});
      visited := visited + [state];
    }

    method RemoveEmptyDirectory()
      requires state.Present? && state.children == map[]
      modifies this
      ensures state == Absent && visited == old(visited) + [Absent]
    {
      state := Absent;
      visited := visited + [state];
    }

    method RemoveListed(listed: seq<string>)
      requires state.Present? && Ascending(listed) && NameSet(listed) == state.children.Keys
      modifies this
      ensures state == Absent && visited == old(visited) + RemovalStates(old(state), listed)
    {
      ghost var d := state;
      DropNone(d.children);
      hide Drop, NameSet, Ascending;
      for i := 0 to |listed|
        invariant state == d.(children := Drop(d.children, listed[..i]))
        invariant visited == old(visited) + PartialStates(d, listed, i)
      {
        DropNext(d.children, listed, i);
        RemoveFile(listed[i]);
      }
      assert listed[..|listed|] == listed;
      DropAll(d.children, listed);
      RemoveEmptyDirectory();
    }

    /** Removes the directory if and only if everything in it is known; a
        refusal removes nothing. */
    method RemoveKnownDirectory(expected: map<string, File>) returns (ok: bool, ghost names: seq<string>)
      modifies this
      ensures ok <==> old(state).Absent? || Known(old(state), expected)
      ensures !ok ==> state == old(state) && visited == old(visited)
      ensures ok ==> state == Absent
      ensures ok && old(state).Absent? ==> visited == old(visited)
      ensures ok && old(state).Present? ==> Ascending(names) && NameSet(names) == old(state).children.Keys
      ensures ok && old(state).Present? ==> visited == old(visited) + RemovalStates(old(state), names)
    {
      names := [];
      if state.Absent? { return true, names; }
      if !state.private { return false, names; }
      var listed := ReadDir(state.children);
      names := listed;
      assert forall i | 0 <= i < |listed| :: listed[i] in NameSet(listed);
      for i := 0 to |listed|
        invariant forall j | 0 <= j < i ::
          listed[j] in expected && state.children[listed[j]].private
            && state.children[listed[j]].stamp == expected[listed[j]].stamp
      {
        var name := listed[i];
        if name !in expected || !state.children[name].private || state.children[name].stamp != expected[name].stamp {
          return false, names;
        }
      }
      assert forall n | n in state.children :: n in NameSet(listed);
      RemoveListed(listed);
      ok := true;
    }
  }

  lemma DropNone(children: map<string, File>)
    ensures Drop(children, []) == children
  {
  }

  lemma DropAll(children: map<string, File>, names: seq<string>)
    requires NameSet(names) == children.Keys
    ensures Drop(children, names) == map[]
  {
  }

  lemma DropNext(children: map<string, File>, names: seq<string>, i: nat)
    requires i < |names| && Ascending(names) && NameSet(names) == children.Keys
    ensures names[i] in Drop(children, names[..i])
    ensures Drop(children, names[..i + 1]) == Drop(children, names[..i]) - {names[i]}
  {
    AscendingDistinct(names, i);
    assert names[..i + 1] == names[..i] + [names[i]];
    assert names[i] in NameSet(names);
  }

  lemma AscendingDistinct(names: seq<string>, i: nat)
    requires Ascending(names) && i < |names|
    ensures names[i] !in NameSet(names[..i])
  {
    StringLessOrder(names[i], names[i], names[i]);
    forall j | 0 <= j < i ensures names[j] != names[i] { assert StringLess(names[j], names[i]); }
  }

  // ----- Reading what is to be deleted -----

  function ReadManifest(d: Directory): (r: Option<File>) {
    if d.Present? && MANIFEST in d.children then Some(d.children[MANIFEST]) else None
  }

  /** A verified entry manifest: private, for this entry, and its blob intact
      with the recorded size. */
  predicate EntryVerified(id: string, d: Directory, blobs: Blobs) {
    && d.Present? && d.private && MANIFEST in d.children && d.children[MANIFEST].private
    && d.children[MANIFEST].data.EntryManifest?
    && var m := d.children[MANIFEST].data;
       m.entryId == id && m.blobId in blobs && blobs[m.blobId] == (m.blobId, m.blobSize)
  }

  /** Deletes an entry directory after checking that its manifest names the
      claimed blob. */
  method DeleteEntry(slot: Slot, id: string, expectedBlob: string, blobs: Blobs) returns (ok: bool)
    modifies slot
    ensures ok <==> EntryDeletable(old(slot.state), id, expectedBlob, blobs)
    ensures ok ==> slot.state == Absent
    ensures !ok ==> slot.state == old(slot.state) && slot.visited == old(slot.visited)
    ensures old(slot.visited) <= slot.visited
    ensures forall i | |old(slot.visited)| <= i < |slot.visited| ::
      EntryDeletable(slot.visited[i], id, expectedBlob, blobs)
  {
    ghost var names;
    var before := ReadManifest(slot.state);
    if before.None? {
      ok, names := slot.RemoveKnownDirectory(map[]);
      if old(slot.state).Present? && ok { EntryRemovalResumes(old(slot.state), names, id, expectedBlob, blobs); }
      return;
    }
    if !EntryVerified(id, slot.state, blobs) { return false; }
    if slot.state.children[MANIFEST].data.blobId != expectedBlob { return false; }
    ok, names := slot.RemoveKnownDirectory(map[MANIFEST := before.value]);
    if ok { EntryRemovalResumes(old(slot.state), names, id, expectedBlob, blobs); }
  }

  /** When deletion of an entry directory goes through. */
  predicate EntryDeletable(d: Directory, id: string, expectedBlob: string, blobs: Blobs) {
    || d.Absent?
    || (d.private && d.children == map[])
    || (EntryVerified(id, d, blobs) && d.children[MANIFEST].data.blobId == expectedBlob
      && d.children.Keys == {MANIFEST})
  }

  /** Every state a crash can leave behind is deletable again. */
  lemma EntryRemovalResumes(d: Directory, names: seq<string>, id: string, expectedBlob: string, blobs: Blobs)
    requires d.Present? && EntryDeletable(d, id, expectedBlob, blobs) && Ascending(names)
    requires NameSet(names) == d.children.Keys
    ensures forall x | x in RemovalStates(d, names) :: EntryDeletable(x, id, expectedBlob, blobs)
  {
    ListingSize(names);
    if d.children != map[] {
      ListingOfOne(names, MANIFEST);
      DropAll(d.children, names);
      OneRemoval(d, MANIFEST);
    }
  }

  lemma OneRemoval(d: Directory, a: string)
    requires d.Present?
    ensures RemovalStates(d, [a]) == [d.(children := Drop(d.children, [a])), Absent]
  {
    assert [a][..1] == [a];
    assert PartialStates(d, [a], 0) == [];
  }

  lemma TwoRemovals(d: Directory, a: string, b: string)
    requires d.Present?
    ensures RemovalStates(d, [a, b])
      == [d.(children := Drop(d.children, [a])), d.(children := Drop(d.children, [a, b])), Absent]
  {
    assert [a, b][..1] == [a] && [a, b][..2] == [a, b];
    assert PartialStates(d, [a, b], 0) == [];
    assert PartialStates(d, [a, b], 1) == [d.(children := Drop(d.children, [a]))];
  }

  /** A readable materialization manifest: private, for this materialization, its
      baseline blob intact, and its entry verified on the same blob. */
  predicate MaterializationVerified(id: string, d: Directory, blobs: Blobs, entryDirectories: map<string, Directory>) {
    && d.Present? && d.private && MANIFEST in d.children && d.children[MANIFEST].private
    && d.children[MANIFEST].data.MaterializationManifest?
    && var m := d.children[MANIFEST].data;
       && m.materializationId == id && 0 <= m.contentSize
       && m.baselineBlobId in blobs && blobs[m.baselineBlobId].0 == m.baselineBlobId
       && m.sourceEntryId in entryDirectories
         && EntryVerified(m.sourceEntryId, entryDirectories[m.sourceEntryId], blobs)
       && var e := entryDirectories[m.sourceEntryId].children[MANIFEST].data;
          e.blobId == m.baselineBlobId
  }

  predicate ManifestMatches(d: Directory, expected: BlobIdentity)
    requires d.Present? && MANIFEST in d.children && d.children[MANIFEST].data.MaterializationManifest?
  {
    d.children[MANIFEST].data.contentId == expected.id && d.children[MANIFEST].data.contentSize == expected.size
  }

  predicate ContentMatches(d: Directory, expected: BlobIdentity)
    requires d.Present? && CONTENT in d.children
  {
    d.children[CONTENT].private && d.children[CONTENT].data == Content(expected.id, expected.size)
  }

  predicate MaterializationDeletable(d: Directory, id: string, expected: BlobIdentity, blobs: Blobs,
        entries: map<string, Directory>) {
    || d.Absent?
    || (d.private && d.children == map[])
    || (MaterializationVerified(id, d, blobs, entries) && ManifestMatches(d, expected)
        && (d.children.Keys == {MANIFEST} || (d.children.Keys == {CONTENT, MANIFEST} && ContentMatches(d, expected))))
  }

  lemma MaterializationRemovalResumes(d: Directory, names: seq<string>, id: string, expected: BlobIdentity,
        blobs: Blobs, entries: map<string, Directory>)
    requires d.Present? && MaterializationDeletable(d, id, expected, blobs, entries) && Ascending(names)
    requires NameSet(names) == d.children.Keys
    ensures forall x | x in RemovalStates(d, names) :: MaterializationDeletable(x, id, expected, blobs, entries)
  {
    ListingSize(names);
    ContentBeforeManifest();
    if d.children.Keys == {MANIFEST} {
      ListingOfOne(names, MANIFEST);
      DropAll(d.children, names);
      OneRemoval(d, MANIFEST);
    } else if d.children != map[] {
      ListingOfTwo(names, CONTENT, MANIFEST);
      DropAll(d.children, names);
      TwoRemovals(d, CONTENT, MANIFEST);
      assert Drop(d.children, [CONTENT]).Keys == {MANIFEST};
    }
  }

  /** Deletes a materialization directory; content goes before its manifest. */
  method DeleteMaterialization(slot: Slot, id: string, expected: BlobIdentity, blobs: Blobs,
        entries: map<string, Directory>) returns (ok: bool)
    modifies slot
    ensures ok <==> MaterializationDeletable(old(slot.state), id, expected, blobs, entries)
    ensures ok ==> slot.state == Absent
    ensures !ok ==> slot.state == old(slot.state) && slot.visited == old(slot.visited)
    ensures old(slot.visited) <= slot.visited
    ensures forall i | |old(slot.visited)| <= i < |slot.visited| ::
      MaterializationDeletable(slot.visited[i], id, expected, blobs, entries)
  {
    ghost var names;
    ghost var d := slot.state;
    if slot.state.Absent? || (slot.state.private && CONTENT !in slot.state.children) {
      if slot.state.Absent? || MANIFEST !in slot.state.children {
        ok, names := slot.RemoveKnownDirectory(map[]);
        if d.Present? && ok { MaterializationRemovalResumes(d, names, id, expected, blobs, entries); }
        return;
      }
      // A manifest whose blob or entry is missing reads as missing itself, and
      // its own directory then holds an unexpected child: both refuse.
      if !MaterializationVerified(id, slot.state, blobs, entries) { return false; }
      if !ManifestMatches(slot.state, expected) { return false; }
      ok, names := slot.RemoveKnownDirectory(map[MANIFEST := slot.state.children[MANIFEST]]);
      if ok { MaterializationRemovalResumes(d, names, id, expected, blobs, entries); }
      return;
    }
    if !slot.state.private || !ContentMatches(slot.state, expected) { return false; }
    if !MaterializationVerified(id, slot.state, blobs, entries) { return false; }
    if !ManifestMatches(slot.state, expected) { return false; }
    ok, names := slot.RemoveKnownDirectory(map[CONTENT := slot.state.children[CONTENT],
      MANIFEST := slot.state.children[MANIFEST]]);
    if ok { MaterializationRemovalResumes(d, names, id, expected, blobs, entries); }
  }

  datatype BlobOutcome = BlobGone | BlobMismatch

  /** Deletes a blob file only when its content still matches the claim; a
      missing file is success, so the deletion can be repeated. */
  method DeleteBlob(blobs: Blobs, expected: BlobIdentity) returns (outcome: BlobOutcome, rest: Blobs)
    ensures outcome == BlobGone <==> expected.id !in blobs || blobs[expected.id] == (expected.id, expected.size)
    ensures outcome == BlobGone ==> rest == blobs - {expected.id}
    ensures outcome == BlobMismatch ==> rest == blobs
  {
    if expected.id !in blobs { return BlobGone, blobs; }
    if blobs[expected.id] != (expected.id, expected.size) { return BlobMismatch, blobs; }
    return BlobGone, blobs - {expected.id};
  }
}
