/** Scanning a directory tree for evidence records: sorted, depth first, and cut off at a number of files. */
module EvidenceScan {
  import opened Text
  import opened Sorting

  const MAX_FILES := 500
  const MAX_BYTES := 262144

  datatype Kind = Unstattable | Symlink | Directory(listing: Listing) | File(size: nat) | Special

  datatype Listing = Unreadable | Listed(entries: seq<Entry>)

  datatype Entry = Entry(name: string, kind: Kind)

  datatype Code = ReadError | SymlinkRejected | PathEscape | FileTooLarge | LimitExceeded

  datatype Issue = Issue(path: string, code: Code)

  // ----- Paths, relative to the root

  function PathOf(directory: string, name: string): string {
    if directory == "" then name else directory + "/" + name
  }

  /** Judged by the first two characters, so a name at the top that merely begins with two dots is taken to escape. */
  predicate Contained(path: string) { !StartsWith(path, "..") }

  predicate EndsWith(s: string, suffix: string) { |suffix| <= |s| && s[|s| - |suffix|..] == suffix }

  predicate IsRecord(path: string, size: nat) { EndsWith(path, ".json") && size <= MAX_BYTES }

  lemma JsonName(path: string)
    ensures EndsWith(path, ".json") <==> |path| >= 5 && path[|path| - 5..] == ".json"
  {
  }

  // ----- Listings, sorted

  predicate NameLe(a: Entry, b: Entry) { StringLe(a.name, b.name) }

  function SortedEntries(entries: seq<Entry>): (r: seq<Entry>)
    ensures forall e :: e in r <==> e in entries
    ensures EntriesHeight(r) <= EntriesHeight(entries)
  {
    var r := Sort(entries, NameLe);
    SortPermutes(entries, NameLe);
    SameMembers(r, entries);
    HeightOfMembers(r, entries);
    r
  }

  function KindHeight(k: Kind): nat
    decreases k, 0
  {
    match k
    case Directory(listing) => 1 + ListingHeight(listing)
    case _ => 0
  }

  function EntriesHeight(entries: seq<Entry>): nat
    decreases entries, 0
  {
    if entries == [] then 0
    else
      var h, rest := KindHeight(entries[0].kind), EntriesHeight(entries[1..]);
      if h > rest then h else rest
  }

  function ListingHeight(listing: Listing): nat
    decreases listing, 0
  {
    match listing
    case Unreadable => 0
    case Listed(entries) => EntriesHeight(entries)
  }

  lemma {:induction false} MemberHeight(e: Entry, entries: seq<Entry>)
    requires e in entries
    ensures KindHeight(e.kind) <= EntriesHeight(entries)
  {
    if entries[0] != e {
      MemberHeight(e, entries[1..]);
    }
  }

  lemma {:induction false} HeightOfMembers(s: seq<Entry>, t: seq<Entry>)
    requires forall e :: e in s ==> e in t
    ensures EntriesHeight(s) <= EntriesHeight(t)
  {
    if s != [] {
      MemberHeight(s[0], t);
      HeightOfMembers(s[1..], t);
    }
  }

  // ----- What a scan with no cap meets, in order

  datatype Item = Record(path: string) | Problem(path: string, code: Code)

  function Walk(directory: string, listing: Listing): seq<Item>
    decreases ListingHeight(listing), 1, 0
  {
    if listing.Unreadable? then [Problem(directory, ReadError)]
    else WalkEntries(directory, SortedEntries(listing.entries))
  }

  function WalkEntries(directory: string, entries: seq<Entry>): seq<Item>
    decreases EntriesHeight(entries), 0, |entries|
  {
    if entries == [] then []
    else WalkEntry(directory, entries[0], entries) + WalkEntries(directory, entries[1..])
  }

  function WalkEntry(directory: string, e: Entry, ghost among: seq<Entry>): seq<Item>
    requires e in among
    decreases EntriesHeight(among), 0, 0
  {
    MemberHeight(e, among);
    var path := PathOf(directory, e.name);
    if !Contained(path) then [Problem(path, PathEscape)]
    else
      match e.kind
      case Unstattable => [Problem(path, ReadError)]
      case Symlink => [Problem(path, SymlinkRejected)]
      case Directory(listing) => Walk(path, listing)
      case File(size) =>
        if !EndsWith(path, ".json") then []
        else if size > MAX_BYTES then [Problem(path, FileTooLarge)]
        else [Record(path)]
      case Special => []
  }

  /** A record file reached through directories alone, none of them a link. */
  ghost predicate RecordIn(directory: string, listing: Listing, path: string)
    decreases ListingHeight(listing), 1
  {
    listing.Listed? && exists e :: e in listing.entries && RecordAt(directory, e, listing.entries, path)
  }

  ghost predicate RecordAt(directory: string, e: Entry, among: seq<Entry>, path: string)
    requires e in among
    decreases EntriesHeight(among), 0
  {
    MemberHeight(e, among);
    var p := PathOf(directory, e.name);
    match e.kind
    case File(size) => |p| >= 5 && p[|p| - 5..] == ".json" && size <= 262144 && path == p
    case Directory(listing) => RecordIn(p, listing, path)
    case _ => false
  }

  /** At or below: the path goes through `p`. */
  predicate Through(p: string, path: string) { path == p || StartsWith(path, p + "/") }

  lemma {:induction false} RecordsAreBelow(directory: string, listing: Listing, path: string)
    requires RecordIn(directory, listing, path) && directory != ""
    ensures StartsWith(path, directory + "/")
    decreases ListingHeight(listing), 1
  {
    var e :| e in listing.entries && RecordAt(directory, e, listing.entries, path);
    RecordThrough(directory, e, listing.entries, path);
    hide RecordIn, RecordAt;
    var p := PathOf(directory, e.name);
    assert p == (directory + "/") + e.name;
    BeginsThrough(path, p, directory + "/");
  }

  lemma BeginsThrough(path: string, middle: string, start: string)
    requires StartsWith(path, middle) && StartsWith(middle, start)
    ensures StartsWith(path, start)
  {
  }

  lemma {:induction false} RecordThrough(directory: string, e: Entry, among: seq<Entry>, path: string)
    requires e in among && RecordAt(directory, e, among, path) && PathOf(directory, e.name) != ""
    ensures Through(PathOf(directory, e.name), path)
    decreases EntriesHeight(among), 0
  {
    MemberHeight(e, among);
    if e.kind.Directory? {
      RecordsAreBelow(PathOf(directory, e.name), e.kind.listing, path);
    }
  }

  /** Going through a path with a name, a record begins with two dots exactly when that path does. */
  lemma ContainedThrough(p: string, path: string)
    requires Through(p, path) && p != ""
    ensures Contained(p) <==> Contained(path)
  {
    if path != p {
      assert path[..|p| + 1] == p + "/";
      assert path[0] == p[0];
      assert path[1] == (p + "/")[1];
      assert StartsWith(p, "..") <==> |p| >= 2 && p[0] == '.' && p[1] == '.' by { TwoDots(p); }
      TwoDots(path);
    }
  }

  lemma TwoDots(s: string)
    ensures StartsWith(s, "..") <==> |s| >= 2 && s[0] == '.' && s[1] == '.'
  {
    if |s| >= 2 {
      assert s[..2] == [s[0], s[1]];
    }
  }

  /** The walk meets every record file there is but those whose path begins with two dots, and no others. */
  lemma {:induction false} WalkFindsRecords(directory: string, listing: Listing, path: string)
    ensures Record(path) in Walk(directory, listing) <==> RecordIn(directory, listing, path) && Contained(path)
    decreases ListingHeight(listing), 1, 0
  {
    hide RecordAt;
    if listing.Listed? {
      var sorted := SortedEntries(listing.entries);
      EntriesFindRecords(directory, sorted, path);
      forall e | e in sorted
        ensures RecordAt(directory, e, sorted, path) <==> RecordAt(directory, e, listing.entries, path)
      {
        RecordAtAny(directory, e, sorted, listing.entries, path);
      }
    }
  }

  lemma RecordAtAny(directory: string, e: Entry, a: seq<Entry>, b: seq<Entry>, path: string)
    requires e in a && e in b
    ensures RecordAt(directory, e, a, path) <==> RecordAt(directory, e, b, path)
  {
  }

  lemma {:induction false} EntriesFindRecords(directory: string, entries: seq<Entry>, path: string)
    ensures Record(path) in WalkEntries(directory, entries) <==>
      Contained(path) && exists e :: e in entries && RecordAt(directory, e, entries, path)
    decreases EntriesHeight(entries), 0, |entries|
  {
    hide RecordAt, WalkEntry;
    if entries != [] {
      EntryFindsRecords(directory, entries[0], entries, path);
      EntriesFindRecords(directory, entries[1..], path);
      var tail := entries[1..];
      if e :| e in tail && RecordAt(directory, e, tail, path) {
        RecordAtAny(directory, e, tail, entries, path);
        assert RecordAt(directory, e, entries, path);
      }
      if e :| e in entries && RecordAt(directory, e, entries, path) {
        if e != entries[0] {
          assert e in tail;
          RecordAtAny(directory, e, tail, entries, path);
          assert RecordAt(directory, e, tail, path);
        }
      }
      assert RecordAt(directory, entries[0], entries, path) ==>
        exists e :: e in entries && RecordAt(directory, e, entries, path);
    }
  }

  lemma EntryFindsRecords(directory: string, e: Entry, among: seq<Entry>, path: string)
    requires e in among
    ensures Record(path) in WalkEntry(directory, e, among) <==>
      RecordAt(directory, e, among, path) && Contained(path)
    decreases EntriesHeight(among), 0, 0
  {
    hide Walk, RecordIn, EndsWith;
    MemberHeight(e, among);
    var p := PathOf(directory, e.name);
    JsonName(p);
    if !Contained(p) && RecordAt(directory, e, among, path) {
      RecordThrough(directory, e, among, path);
      ContainedThrough(p, path);
    }
    if e.kind.Directory? {
      WalkFindsRecords(p, e.kind.listing, path);
    }
  }

  /** Entries of the root have names. */
  ghost predicate Named(listing: Listing) { listing.Listed? ==> forall e :: e in listing.entries ==> e.name != "" }

  /** There is a record at, or somewhere under, an entry of the root whose name begins with two dots. */
  ghost predicate RecordUnderDots(listing: Listing, path: string) {
    listing.Listed? &&
    exists e :: e in listing.entries && StartsWith(e.name, "..") && RecordAt("", e, listing.entries, path)
  }

  lemma UnderDots(listing: Listing, path: string)
    requires Named(listing)
    ensures RecordUnderDots(listing, path) <==> RecordIn("", listing, path) && !Contained(path)
  {
    hide RecordAt;
    if listing.Listed? {
      forall e | e in listing.entries && RecordAt("", e, listing.entries, path)
        ensures Contained(e.name) <==> Contained(path)
      {
        RecordThrough("", e, listing.entries, path);
        ContainedThrough(e.name, path);
      }
    }
  }

  /**
   * The walk from the root meets exactly the records there are, exactly when none of them lies at or under a name of
   * the root that begins with two dots.
   */
  lemma WalkCompleteExactly(listing: Listing)
    requires Named(listing)
    ensures (forall path :: Record(path) in Walk("", listing) <==> RecordIn("", listing, path)) <==>
            (forall path :: !RecordUnderDots(listing, path))
  {
    hide Walk, RecordIn, RecordUnderDots;
    forall path: string
      ensures (Record(path) in Walk("", listing) <==> RecordIn("", listing, path)) <==>
              !RecordUnderDots(listing, path)
    {
      WalkFindsRecords("", listing, path);
      UnderDots(listing, path);
    }
  }

  /**
   * A path is reported as an escape exactly when it is a name in the root itself that begins with two dots: so never
   * for a path that leaves the root.
   */
  lemma EscapesExactly(listing: Listing, path: string)
    requires Named(listing)
    ensures Problem(path, PathEscape) in Walk("", listing) <==>
      StartsWith(path, "..") && listing.Listed? && exists e :: e in listing.entries && e.name == path
  {
    hide WalkEntries;
    if listing.Listed? {
      RootEscapes(SortedEntries(listing.entries), path);
    }
  }

  lemma {:induction false} RootEscapes(entries: seq<Entry>, path: string)
    requires forall e :: e in entries ==> e.name != ""
    ensures Problem(path, PathEscape) in WalkEntries("", entries) <==>
      StartsWith(path, "..") && exists e :: e in entries && e.name == path
  {
    hide Walk;
    if entries != [] {
      var e := entries[0];
      MemberHeight(e, entries);
      assert Problem(path, PathEscape) in WalkEntry("", e, entries) <==> StartsWith(path, "..") && e.name == path by {
        if Contained(e.name) && e.kind.Directory? {
          NoEscapeBelow(e.name, e.kind.listing, path);
        }
      }
      RootEscapes(entries[1..], path);
    }
  }

  lemma {:induction false} NoEscapeBelow(directory: string, listing: Listing, path: string)
    requires Contained(directory) && directory != ""
    ensures Problem(path, PathEscape) !in Walk(directory, listing)
    decreases ListingHeight(listing), 1
  {
    hide WalkEntries;
    if listing.Listed? {
      NoEscapeAmong(directory, SortedEntries(listing.entries), path);
    }
  }

  lemma {:induction false} NoEscapeAmong(directory: string, entries: seq<Entry>, path: string)
    requires Contained(directory) && directory != ""
    ensures Problem(path, PathEscape) !in WalkEntries(directory, entries)
    decreases EntriesHeight(entries), 0, |entries|
  {
    hide Walk;
    if entries != [] {
      var e := entries[0];
      MemberHeight(e, entries);
      StillContained(directory, e.name);
      if e.kind.Directory? {
        NoEscapeBelow(PathOf(directory, e.name), e.kind.listing, path);
      }
      NoEscapeAmong(directory, entries[1..], path);
    }
  }

  /** A directory is gone through by name: an entry whose name comes first is met first. */
  lemma EntriesInOrder(entries: seq<Entry>)
    ensures var r := SortedEntries(entries);
      multiset(r) == multiset(entries) &&
      forall i, j :: 0 <= i < j < |r| ==>
        (|r[i].name| <= |r[j].name| && r[j].name[..|r[i].name|] == r[i].name) ||
        exists n: nat :: LowerAt(r[i].name, r[j].name, n)
  {
    StringOrder();
    SortPermutes(entries, NameLe);
    SortSorts(entries, NameLe);
    hide Sort, StringLe;
    var r := SortedEntries(entries);
    forall i, j | 0 <= i < j < |r| ensures StringLe(r[i].name, r[j].name) {
      assert NameLe(r[i], r[j]);
    }
    forall i, j | 0 <= i < j < |r|
      ensures (|r[i].name| <= |r[j].name| && r[j].name[..|r[i].name|] == r[i].name) ||
              exists n: nat :: LowerAt(r[i].name, r[j].name, n)
    {
      StringLeIs(r[i].name, r[j].name);
    }
  }

  predicate DistinctNames(entries: seq<Entry>) {
    forall i, j :: 0 <= i < j < |entries| ==> entries[i].name != entries[j].name
  }

  /** The order the file system lists a directory in does not matter. */
  lemma WalkIgnoresListingOrder(directory: string, entries: seq<Entry>, shuffled: seq<Entry>)
    requires multiset(entries) == multiset(shuffled) && DistinctNames(entries)
    ensures Walk(directory, Listed(entries)) == Walk(directory, Listed(shuffled))
  {
    hide Sort, StringLe, WalkEntries;
    StringOrder();
    forall a, b | a in entries && b in entries && NameLe(a, b) && NameLe(b, a) ensures a == b {
      var i :| 0 <= i < |entries| && entries[i] == a;
      var j :| 0 <= j < |entries| && entries[j] == b;
    }
    SortOfPermutation(entries, shuffled, NameLe);
  }

  // ----- The cap

  datatype Scan = Scan(files: seq<string>, errors: seq<Issue>, limitExceeded: bool)

  /** One more item, unless the limit has been hit. */
  function Meet(s: Scan, item: Item): Scan {
    if s.limitExceeded then s
    else
      match item
      case Problem(path, code) => s.(errors := s.errors + [Issue(path, code)])
      case Record(path) =>
        if |s.files| >= MAX_FILES then
          s.(errors := s.errors + [Issue("", LimitExceeded)], limitExceeded := true)
        else s.(files := s.files + [path])
  }

  function MeetAll(s: Scan, items: seq<Item>): Scan
    decreases |items|
  {
    if items == [] then s else MeetAll(Meet(s, items[0]), items[1..])
  }

  lemma {:induction false} MeetInTurn(s: Scan, a: seq<Item>, b: seq<Item>)
    ensures MeetAll(MeetAll(s, a), b) == MeetAll(s, a + b)
    decreases |a|
  {
    hide Meet;
    if a == [] {
      assert a + b == b;
    } else {
      MeetInTurn(Meet(s, a[0]), a[1..], b);
      assert (a + b)[1..] == a[1..] + b;
    }
  }

  lemma {:induction false} NothingAfterLimit(s: Scan, items: seq<Item>)
    requires s.limitExceeded
    ensures MeetAll(s, items) == s
  {
    if items != [] {
      NothingAfterLimit(s, items[1..]);
    }
  }

  function RecordsOf(items: seq<Item>): seq<string> {
    if items == [] then []
    else (if items[0].Record? then [items[0].path] else []) + RecordsOf(items[1..])
  }

  function ProblemsOf(items: seq<Item>): seq<Issue> {
    if items == [] then []
    else (if items[0].Problem? then [Issue(items[0].path, items[0].code)] else []) + ProblemsOf(items[1..])
  }

  /** How many items come before the record that is one too many, when there is room for `room` more. */
  function Cut(items: seq<Item>, room: nat): (n: nat)
    ensures n <= |items|
  {
    if items == [] then 0
    else if items[0].Record? then if room == 0 then 0 else 1 + Cut(items[1..], room - 1)
    else 1 + Cut(items[1..], room)
  }

  /** The cap, stated at once: what comes before the cut, and the limit error just when something comes after. */
  lemma CappedScan(s: Scan, items: seq<Item>)
    requires !s.limitExceeded && |s.files| <= MAX_FILES
    ensures var room := 500 - |s.files|;
      var r := MeetAll(s, items);
      r.files == s.files + Take(RecordsOf(items), room) &&
      (r.limitExceeded <==> |RecordsOf(items)| > room) &&
      r.errors == s.errors + ProblemsOf(items[..Cut(items, room)]) +
        (if |RecordsOf(items)| > room then [Issue("", LimitExceeded)] else [])
  {
    CappedFiles(s, items);
    CappedErrors(s, items);
  }

  lemma MeetStep(s: Scan, items: seq<Item>)
    ensures items == [] ==> MeetAll(s, items) == s
    ensures items != [] ==> MeetAll(s, items) == MeetAll(Meet(s, items[0]), items[1..])
  {
  }

  lemma RecordsCons(items: seq<Item>)
    ensures items == [] ==> RecordsOf(items) == []
    ensures items != [] && items[0].Problem? ==> RecordsOf(items) == RecordsOf(items[1..])
    ensures items != [] && items[0].Record? ==> RecordsOf(items) == [items[0].path] + RecordsOf(items[1..])
  {
  }

  /** Taking one record and then the rest. */
  lemma FirstCons(files: seq<string>, x: string, s: seq<string>, n: nat)
    requires n > 0
    ensures files + Take([x] + s, n) == files + [x] + Take(s, n - 1)
  {
  }

  lemma FirstNone(files: seq<string>, s: seq<string>)
    ensures files + Take(s, 0) == files && files + Take([], |s|) == files
  {
  }

  lemma {:induction false} CappedFiles(s: Scan, items: seq<Item>)
    requires !s.limitExceeded && |s.files| <= MAX_FILES
    ensures MeetAll(s, items).files == s.files + Take(RecordsOf(items), MAX_FILES - |s.files|)
    ensures MeetAll(s, items).limitExceeded <==> |RecordsOf(items)| > MAX_FILES - |s.files|
    decreases |items|
  {
    hide MeetAll, RecordsOf, Take;
    var room := MAX_FILES - |s.files|;
    MeetStep(s, items);
    RecordsCons(items);
    if items == [] {
      FirstNone(s.files, seq(room, _ => ""));
    } else if items[0].Record? && room == 0 {
      NothingAfterLimit(Meet(s, items[0]), items[1..]);
      FirstNone(s.files, RecordsOf(items));
    } else {
      CappedFiles(Meet(s, items[0]), items[1..]);
      if items[0].Record? {
        FirstCons(s.files, items[0].path, RecordsOf(items[1..]), room);
      }
    }
  }

  lemma {:induction false} CappedErrors(s: Scan, items: seq<Item>)
    requires !s.limitExceeded && |s.files| <= MAX_FILES
    ensures MeetAll(s, items).errors == s.errors + ProblemsOf(items[..Cut(items, MAX_FILES - |s.files|)]) +
      (if |RecordsOf(items)| > MAX_FILES - |s.files| then [Issue("", LimitExceeded)] else [])
    decreases |items|
  {
    hide MeetAll, RecordsOf, ProblemsOf;
    var room := MAX_FILES - |s.files|;
    MeetStep(s, items);
    RecordsCons(items);
    NoProblems();
    if items == [] {
    } else if items[0].Record? && room == 0 {
      NothingAfterLimit(Meet(s, items[0]), items[1..]);
      assert items[..0] == [] && s.errors + [] == s.errors;
    } else {
      var rest, cut := items[1..], Cut(items, room);
      CappedErrors(Meet(s, items[0]), rest);
      assert items[..cut] == [items[0]] + rest[..cut - 1];
      ProblemsCons(items[0], rest[..cut - 1]);
      if items[0].Problem? {
        Reassociate(s.errors, Issue(items[0].path, items[0].code), ProblemsOf(rest[..cut - 1]));
      }
    }
  }

  lemma NoProblems()
    ensures ProblemsOf([]) == []
  {
  }

  lemma Reassociate(errors: seq<Issue>, issue: Issue, more: seq<Issue>)
    ensures errors + [issue] + more == errors + ([issue] + more)
  {
  }

  lemma ProblemsCons(item: Item, items: seq<Item>)
    ensures ProblemsOf([item] + items) ==
      (if item.Problem? then [Issue(item.path, item.code)] else []) + ProblemsOf(items)
  {
    assert ([item] + items)[1..] == items;
  }

  // ----- The scan as it is written

  class ScanState {
    var files: seq<string>
    var errors: seq<Issue>
    var limitExceeded: bool

    function AsScan(): Scan
      reads this
    {
      Scan(files, errors, limitExceeded)
    }

    constructor (reported: seq<Issue>)
      ensures AsScan() == Scan([], reported, false)
    {
      files, errors, limitExceeded := [], reported, false;
    }

    method Push(path: string, code: Code)
      requires !limitExceeded
      modifies this
      ensures AsScan() == Meet(old(AsScan()), Problem(path, code))
    {
      errors := errors + [Issue(path, code)];
    }

    /** The whole of a directory, wherever the limit falls inside it. */
    method ScanDirectory(directory: string, listing: Listing)
      modifies this
      ensures AsScan() == MeetAll(old(AsScan()), Walk(directory, listing))
      decreases ListingHeight(listing), 1, 0
    {
      hide Meet, WalkEntry, SortedEntries, MeetAll;
      if limitExceeded {
        NothingAfterLimit(AsScan(), Walk(directory, listing));
        return;
      }
      if listing.Unreadable? {
        Push(directory, ReadError);
        MeetOne(old(AsScan()), Problem(directory, ReadError));
        return;
      }
      var entries := SortedEntries(listing.entries);
      ghost var start := AsScan();
      ghost var done: seq<Item> := [];
      MeetNone(start);
      var i := 0;
      while i < |entries|
        invariant 0 <= i <= |entries|
        invariant AsScan() == MeetAll(start, done)
        invariant Walk(directory, listing) == done + WalkEntries(directory, entries[i..])
      {
        if limitExceeded {
          NothingAfterLimit(AsScan(), WalkEntries(directory, entries[i..]));
          MeetInTurn(start, done, WalkEntries(directory, entries[i..]));
          return;
        }
        ghost var items := WalkEntry(directory, entries[i], entries[i..]);
        assert entries[i..][1..] == entries[i + 1..];
        HeightOfMembers(entries[i..], entries);
        ScanEntry(directory, entries[i], entries[i..]);
        MeetInTurn(start, done, items);
        assert done + (items + WalkEntries(directory, entries[i + 1..])) ==
               done + items + WalkEntries(directory, entries[i + 1..]);
        done := done + items;
        i := i + 1;
      }
      assert entries[i..] == [] && done + [] == done;
    }

    /** One entry of a directory. */
    method ScanEntry(directory: string, e: Entry, ghost among: seq<Entry>)
      requires e in among && !limitExceeded
      modifies this
      ensures AsScan() == MeetAll(old(AsScan()), WalkEntry(directory, e, among))
      decreases EntriesHeight(among), 0, 0
    {
      hide Walk, EndsWith, MeetAll;
      MemberHeight(e, among);
      var path := PathOf(directory, e.name);
      ghost var start := AsScan();
      MeetNone(start);
      forall item ensures MeetAll(start, [item]) == Meet(start, item) {
        MeetOne(start, item);
      }
      if !Contained(path) {
        Push(path, PathEscape);
        return;
      }
      match e.kind {
        case Unstattable => Push(path, ReadError);
        case Symlink => Push(path, SymlinkRejected);
        case Directory(listing) => ScanDirectory(path, listing);
        case File(size) =>
          if !EndsWith(path, ".json") {
            return;
          }
          if size > MAX_BYTES {
            Push(path, FileTooLarge);
            return;
          }
          if |files| >= MAX_FILES {
            limitExceeded := true;
            errors := errors + [Issue("", LimitExceeded)];
            return;
          }
          files := files + [path];
        case Special =>
      }
    }
  }

  lemma MeetNone(s: Scan)
    ensures MeetAll(s, []) == s
  {
  }

  lemma MeetOne(s: Scan, item: Item)
    ensures MeetAll(s, [item]) == Meet(s, item)
  {
    assert [item][1..] == [];
  }

  /** What stands at the path of the records directory. A link that leads nowhere counts as nothing there. */
  datatype Root = Missing | DanglingLink | There(kind: Kind)

  /** The records directory itself. */
  method ListEvidenceRecordFiles(root: Root) returns (files: seq<string>, errors: seq<Issue>)
    ensures root.Missing? || root.DanglingLink? ==> files == [] && errors == []
    ensures root.There? && (root.kind.File? || root.kind.Special?) ==> files == [] && errors == []
    ensures root == There(Unstattable) ==> files == [] && errors == [Issue("", ReadError)]
    ensures root == There(Symlink) ==> files == [] && errors == [Issue("", SymlinkRejected)]
    ensures root.There? && root.kind.Directory? ==>
      var items := Walk("", root.kind.listing);
      files == Sort(Take(RecordsOf(items), 500), StringLe) &&
      errors == ProblemsOf(items[..Cut(items, 500)]) +
        if |RecordsOf(items)| > 500 then [Issue("", LimitExceeded)] else []
  {
    hide Walk, Sort, RecordsOf, ProblemsOf, Cut;
    if !root.There? {
      return [], [];
    }
    match root.kind {
      case Unstattable => return [], [Issue("", ReadError)];
      case Symlink => return [], [Issue("", SymlinkRejected)];
      case File(_) => return [], [];
      case Special => return [], [];
      case Directory(listing) =>
        var state := new ScanState([]);
        state.ScanDirectory("", listing);
        CappedScan(Scan([], [], false), Walk("", listing));
        assert [] + Take(RecordsOf(Walk("", listing)), MAX_FILES) == Take(RecordsOf(Walk("", listing)), MAX_FILES);
        return Sort(state.files, StringLe), state.errors;
    }
  }

  /** A name that begins with two dots is refused at the top, though it escapes nothing, and accepted below. */
  lemma TwoDotsAtTheTop(name: string, size: nat, directory: string)
    requires StartsWith(name, "..") && IsRecord(name, size) && Contained(directory) && directory != ""
    ensures Walk("", Listed([Entry(name, File(size))])) == [Problem(name, PathEscape)]
    ensures RecordUnderDots(Listed([Entry(name, File(size))]), name)
    ensures Walk("", Listed([Entry(directory, Directory(Listed([Entry(name, File(size))])))])) ==
      [Record(directory + "/" + name)]
  {
    hide EndsWith;
    var e := Entry(name, File(size));
    SingleEntry("", e);
    JsonName(name);
    assert RecordAt("", e, [e], name);
    SingleEntry(directory, e);
    SingleEntry("", Entry(directory, Directory(Listed([e]))));
    SuffixKept(directory, name, ".json");
    assert Contained(directory + "/" + name) by { StillContained(directory, name); }
  }

  lemma SingleEntry(directory: string, e: Entry)
    ensures Walk(directory, Listed([e])) == WalkEntry(directory, e, [e])
  {
    hide WalkEntry;
    assert SortedEntries([e]) == [e] by { SortOne(e); }
    assert [e][1..] == [];
    assert WalkEntries(directory, [e]) == WalkEntry(directory, e, [e]) + WalkEntries(directory, []);
  }

  lemma SortOne(e: Entry)
    ensures Sort([e], NameLe) == [e]
  {
    assert [e][1..] == [];
    assert Sort([], NameLe) == [];
  }

  lemma SuffixKept(directory: string, name: string, suffix: string)
    requires EndsWith(name, suffix)
    ensures EndsWith(directory + "/" + name, suffix)
  {
    var path := directory + "/" + name;
    assert path[|path| - |suffix|..] == name[|name| - |suffix|..];
  }

  lemma StillContained(directory: string, name: string)
    requires Contained(directory) && directory != ""
    ensures Contained(directory + "/" + name)
  {
    var path := directory + "/" + name;
    if |directory| >= 2 {
      assert path[..2] == directory[..2];
    } else {
      assert path[1] == '/';
    }
  }
}
