/** Replacing one root entry of a Git tree, on the bytes that ls-tree prints and mktree reads. */
module GitTree {
  import opened Text

  datatype TreeEntry = TreeEntry(mode: string, kind: string, oid: string)

  datatype Named = Named(name: string, entry: TreeEntry)

  /** Entries by name. */
  type Tree = map<string, TreeEntry>

  // ---------------------------------------------------------------------
  // Listings.
  // ---------------------------------------------------------------------

  predicate Tabless(text: string) {
    forall i :: 0 <= i < |text| ==> text[i] !in "\t\0"
  }

  predicate Clean(field: string) {
    Tabless(field) && ' ' !in field
  }

  predicate Proper(n: Named) {
    && Clean(n.entry.mode) && Clean(n.entry.kind) && Clean(n.entry.oid)
    && n.name != "" && '\0' !in n.name
  }

  predicate ProperListing(entries: seq<Named>) {
    && (forall i :: 0 <= i < |entries| ==> Proper(entries[i]))
    && (forall i, j :: 0 <= i < j < |entries| ==> entries[i].name != entries[j].name)
  }

  function Record(n: Named): string {
    n.entry.mode + " " + n.entry.kind + " " + n.entry.oid + "\t" + n.name
  }

  function Ended(record: string): string {
    record + "\0"
  }

  /** git ls-tree -z: records that end in NUL. */
  function Listing(entries: seq<Named>): string {
    if entries == [] then "" else Ended(Record(entries[0])) + Listing(entries[1..])
  }

  function TreeOf(entries: seq<Named>): Tree {
    if entries == [] then map[]
    else TreeOf(entries[..|entries| - 1])[entries[|entries| - 1].name := entries[|entries| - 1].entry]
  }

  function Records(entries: seq<Named>): (r: seq<string>)
    ensures |r| == |entries|
  {
    seq(|entries|, i requires 0 <= i < |entries| => Record(entries[i]))
  }

  lemma {:induction false} ListingAppend(a: seq<Named>, b: seq<Named>)
    ensures Listing(a + b) == Listing(a) + Listing(b)
  {
    hide Record, Ended;
    if a == [] {
      assert a + b == b;
    } else {
      ListingAppend(a[1..], b);
      assert (a + b)[1..] == a[1..] + b;
      JoinIsAssociative(Ended(Record(a[0])), Listing(a[1..]), Listing(b));
    }
  }

  lemma JoinIsAssociative(x: string, y: string, z: string)
    ensures x + (y + z) == x + y + z
  {
  }

  lemma ListingOne(n: Named)
    ensures Listing([n]) == Ended(Record(n))
  {
    hide Record, Ended;
    assert [n][1..] == [];
  }

  function Head(e: TreeEntry): string {
    e.mode + " " + e.kind + " " + e.oid
  }

  /** A record's first tab ends its mode, kind and object id. */
  lemma TabOfRecord(n: Named)
    requires Proper(n)
    ensures var at := IndexAny(Record(n), "\t");
            at >= 0 && Record(n)[..at] == Head(n.entry) && Record(n)[at + 1..] == n.name && Record(n) != ""
              && '\0' !in Record(n)
  {
    var head := Head(n.entry);
    TablessJoin(n.entry.mode, " ");
    TablessJoin(n.entry.mode + " ", n.entry.kind);
    TablessJoin(n.entry.mode + " " + n.entry.kind, " ");
    TablessJoin(n.entry.mode + " " + n.entry.kind + " ", n.entry.oid);
    IndexAnyAfter(head, "\t" + n.name, "\t");
    assert Record(n) == head + ("\t" + n.name);
    assert IndexAny("\t" + n.name, "\t") == 0;
  }

  lemma TablessJoin(a: string, b: string)
    requires Tabless(a) && Tabless(b)
    ensures Tabless(a + b)
  {
  }

  /** The part before the first space, and the part after it. */
  lemma FirstField(field: string, rest: string)
    requires ' ' !in field
    ensures var at := IndexAny(field + " " + rest, " ");
            at == |field| && (field + " " + rest)[..at] == field && (field + " " + rest)[at + 1..] == rest
  {
    IndexAnyAfter(field, " " + rest, " ");
    assert field + " " + rest == field + (" " + rest);
    assert IndexAny(" " + rest, " ") == 0;
  }

  lemma HeadDetermines(a: TreeEntry, b: TreeEntry)
    requires Clean(a.mode) && Clean(a.kind) && Clean(b.mode) && Clean(b.kind) && Head(a) == Head(b)
    ensures a == b
  {
    hide IndexAny;
    assert Head(a) == a.mode + " " + (a.kind + " " + a.oid) && Head(b) == b.mode + " " + (b.kind + " " + b.oid);
    FirstField(a.mode, a.kind + " " + a.oid);
    FirstField(b.mode, b.kind + " " + b.oid);
    FirstField(a.kind, a.oid);
    FirstField(b.kind, b.oid);
  }

  /** A listing has one reading. */
  lemma ListingDetermines(a: seq<Named>, b: seq<Named>)
    requires ProperListing(a) && ProperListing(b) && Listing(a) == Listing(b)
    ensures a == b
  {
    hide Record, Listing, Split, Head, IndexAny, Proper;
    SplitListing(a);
    SplitListing(b);
    var one, two := Records(a) + [""], Records(b) + [""];
    assert |one| == |a| + 1 && |two| == |b| + 1;
    forall i | 0 <= i < |a| ensures a[i] == b[i] {
      assert one[i] == Record(a[i]) && two[i] == Record(b[i]);
      RecordDetermines(a[i], b[i]);
    }
  }

  lemma RecordDetermines(a: Named, b: Named)
    requires Proper(a) && Proper(b) && Record(a) == Record(b)
    ensures a == b
  {
    hide Record, Head, IndexAny;
    TabOfRecord(a);
    TabOfRecord(b);
    HeadDetermines(a.entry, b.entry);
  }

  lemma SplitFirst(record: string, rest: string)
    requires '\0' !in record
    ensures Split(Ended(record) + rest, '\0') == [record] + Split(rest, '\0')
  {
    var s := record + ("\0" + rest);
    assert Ended(record) + rest == s;
    assert ['\0'] == "\0";
    IndexAnyAfter(record, "\0" + rest, "\0");
    assert IndexAny("\0" + rest, "\0") == 0;
    assert s[..|record|] == record && s[|record| + 1..] == rest;
  }

  /** Splitting a listing at NUL gives its records and an empty rest. */
  lemma {:induction false} SplitListing(entries: seq<Named>)
    requires ProperListing(entries)
    ensures Split(Listing(entries), '\0') == Records(entries) + [""]
  {
    hide Record, Proper, Ended, Split;
    if entries == [] {
      SplitEmpty();
      assert Records(entries) == [];
    } else {
      assert Proper(entries[0]);
      TabOfRecord(entries[0]);
      SplitFirst(Record(entries[0]), Listing(entries[1..]));
      SplitListing(entries[1..]);
      assert Records(entries) == [Record(entries[0])] + Records(entries[1..]);
    }
  }

  lemma SplitEmpty()
    ensures Split("", '\0') == [""]
  {
  }

  // ---------------------------------------------------------------------
  // The splice.
  // ---------------------------------------------------------------------

  function KeptRecord(record: string, path: string): Option<string> {
    if record == "" then Some("")
    else
      var tab := IndexAny(record, "\t");
      if tab < 0 then None
      else if record[tab + 1..] == path then Some("")
      else Some(Ended(record))
  }

  function Kept(records: seq<string>, path: string): Option<string> {
    if records == [] then Some("")
    else
      var front, last := Kept(records[..|records| - 1], path), KeptRecord(records[|records| - 1], path);
      if front.None? || last.None? then None else Some(front.value + last.value)
  }

  datatype TreeError = NotRootPath | NotBlobMode | MalformedListing

  predicate RootPath(path: string) {
    path != "" && !ContainsAny(path, "/\0\r\n")
  }

  predicate BlobMode(mode: string) {
    mode == "100644" || mode == "100755"
  }

  lemma RootPaths(path: string)
    ensures RootPath(path) <==>
              path != "" && '/' !in path && '\0' !in path && '\r' !in path && '\n' !in path
  {
    assert forall i :: 0 <= i < |path| ==> path[i] in path;
  }

  /** What BuildTreeWithRootBlob hands to mktree, given what ls-tree printed. */
  method SpliceRootBlob(current: string, path: string, mode: string, blobOid: string)
    returns (r: Result<string, TreeError>)
    ensures path == "" || '/' in path || '\0' in path || '\r' in path || '\n' in path ==> r == Err(NotRootPath)
    ensures r == Err(NotBlobMode) ==> mode != "100644" && mode != "100755"
    ensures mode != "100644" && mode != "100755" ==> r == Err(NotBlobMode) || r == Err(NotRootPath)
    ensures !RootPath(path) ==> r == Err(NotRootPath)
    ensures RootPath(path) && !BlobMode(mode) ==> r == Err(NotBlobMode)
    ensures RootPath(path) && BlobMode(mode) ==>
              r == match Kept(Split(current, '\0'), path)
                   case None => Err(MalformedListing)
                   case Some(kept) => Ok(kept + Ended(Record(Named(path, TreeEntry(mode, "blob", blobOid)))))
  {
    hide KeptRecord, Record, ContainsAny, Split, Ended;
    RootPaths(path);
    if !RootPath(path) {
      return Err(NotRootPath);
    }
    if !BlobMode(mode) {
      return Err(NotBlobMode);
    }
    var records := Split(current, '\0');
    var input := "";
    for i := 0 to |records|
      invariant Kept(records[..i], path) == Some(input)
    {
      assert records[..i + 1][..i] == records[..i];
      var kept := KeptRecord(records[i], path);
      if kept.None? {
        MalformedStays(records, path, i + 1, |records|);
        assert records[..|records|] == records;
        return Err(MalformedListing);
      }
      input := input + kept.value;
    }
    assert records[..|records|] == records;
    return Ok(input + Ended(Record(Named(path, TreeEntry(mode, "blob", blobOid)))));
  }

  lemma {:induction false} MalformedStays(records: seq<string>, path: string, m: nat, n: nat)
    requires m <= n <= |records|
    ensures Kept(records[..m], path).None? ==> Kept(records[..n], path).None?
    decreases n
  {
    hide KeptRecord;
    if m < n {
      MalformedStays(records, path, m, n - 1);
      assert records[..n][..n - 1] == records[..n - 1];
    }
  }

  function Others(entries: seq<Named>, path: string): seq<Named> {
    if entries == [] then []
    else
      var front, last := Others(entries[..|entries| - 1], path), entries[|entries| - 1];
      if last.name == path then front else front + [last]
  }

  lemma {:induction false} KeptListing(entries: seq<Named>, path: string)
    requires ProperListing(entries)
    ensures Kept(Records(entries), path) == Some(Listing(Others(entries, path)))
  {
    hide Record, Proper, Ended, Listing, KeptRecord;
    if entries == [] {
      assert Records(entries) == [];
      ListingEmpty();
    } else {
      var front, last := entries[..|entries| - 1], entries[|entries| - 1];
      KeptListing(front, path);
      assert Proper(last);
      KeptOfProper(last, path);
      assert Records(entries)[..|entries| - 1] == Records(front);
      ListingAppend(Others(front, path), [last]);
      ListingOne(last);
      assert Listing(Others(front, path)) + "" == Listing(Others(front, path));
    }
  }

  lemma KeptOfProper(n: Named, path: string)
    requires Proper(n)
    ensures KeptRecord(Record(n), path) == Some(if n.name == path then "" else Ended(Record(n)))
  {
    hide Record, Ended;
    TabOfRecord(n);
  }

  lemma ListingEmpty()
    ensures Listing([]) == ""
  {
  }

  lemma {:induction false} OthersProper(entries: seq<Named>, path: string)
    requires ProperListing(entries)
    ensures ProperListing(Others(entries, path))
    ensures forall n :: n in Others(entries, path) ==> n in entries && n.name != path
  {
    hide ProperListing;
    if entries == [] {
      NothingIsProper();
    } else {
      var front, last := entries[..|entries| - 1], entries[|entries| - 1];
      assert entries == front + [last];
      ProperParts(front, last);
      OthersProper(front, path);
      ProperTogether(Others(front, path), last);
    }
  }

  lemma NothingIsProper()
    ensures ProperListing([])
  {
  }

  lemma ProperParts(front: seq<Named>, last: Named)
    requires ProperListing(front + [last])
    ensures ProperListing(front) && Proper(last) && forall n :: n in front ==> n.name != last.name
  {
    hide Proper;
    var entries := front + [last];
    assert entries[|front|] == last;
    assert forall i :: 0 <= i < |front| ==> entries[i] == front[i];
  }

  lemma ProperTogether(front: seq<Named>, last: Named)
    requires ProperListing(front) && Proper(last) && forall n :: n in front ==> n.name != last.name
    ensures ProperListing(front + [last])
  {
    hide Proper;
    assert forall i :: 0 <= i < |front| ==> front[i] in front;
  }

  lemma {:induction false} TreeOfOthers(entries: seq<Named>, path: string)
    ensures TreeOf(Others(entries, path)) == TreeOf(entries) - {path}
  {
    hide TreeOf;
    if entries == [] {
      NoTree();
    } else {
      var front, last := entries[..|entries| - 1], entries[|entries| - 1];
      TreeOfOthers(front, path);
      assert entries == front + [last];
      TreeOfMore(front, last);
      TreeOfMore(Others(front, path), last);
      SetThenDrop(TreeOf(front), last, path);
    }
  }

  lemma NoTree()
    ensures TreeOf([]) == map[]
  {
  }

  lemma SetThenDrop(tree: Tree, n: Named, path: string)
    ensures tree[n.name := n.entry] - {path} == if n.name == path then tree - {path}
                                                else (tree - {path})[n.name := n.entry]
  {
  }

  lemma TreeOfMore(entries: seq<Named>, n: Named)
    ensures TreeOf(entries + [n]) == TreeOf(entries)[n.name := n.entry]
  {
    assert (entries + [n])[..|entries|] == entries;
  }

  /**
   * The splice of a printed tree prints the tree with that one entry set: every other entry is there,
   * unchanged, and nothing else is.
   */
  lemma SpliceSetsOneEntry(entries: seq<Named>, path: string, entry: TreeEntry) returns (spliced: seq<Named>)
    requires ProperListing(entries) && Proper(Named(path, entry))
    ensures Kept(Split(Listing(entries), '\0'), path).Some?
    ensures Kept(Split(Listing(entries), '\0'), path).value + Ended(Record(Named(path, entry))) == Listing(spliced)
    ensures ProperListing(spliced) && TreeOf(spliced) == TreeOf(entries)[path := entry]
  {
    hide Record, Proper, ProperListing, Kept, Split, Ended, Listing, TreeOf, Others;
    var others, added := Others(entries, path), Named(path, entry);
    spliced := others + [added];
    SplitListing(entries);
    KeptListing(entries, path);
    KeptTail(Records(entries), path);
    OthersProper(entries, path);
    ProperTogether(others, added);
    TreeOfOthers(entries, path);
    TreeOfMore(others, added);
    ListingAppend(others, [added]);
    ListingOne(added);
    assert (TreeOf(entries) - {path})[path := entry] == TreeOf(entries)[path := entry];
  }

  lemma KeptTail(records: seq<string>, path: string)
    ensures Kept(records + [""], path) == Kept(records, path)
  {
    assert (records + [""])[..|records|] == records;
    if Kept(records, path).Some? {
      assert Kept(records, path).value + "" == Kept(records, path).value;
    }
  }
}
