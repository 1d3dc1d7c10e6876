/** Reading the NUL-separated porcelain output of git, and the format it is the inverse of. */
module Porcelain {
  import opened Text
  import opened Sorting

  const NUL := '\0'

  /** One changed path; a rename or copy also carries the path it came from. */
  datatype Entry = Entry(status: string, path: string, original: Option<string>)

  predicate StatusChar(c: char) { c in " MTADRCU?!" }

  predicate ValidStatus(status: string) {
    |status| == 2 && StatusChar(status[0]) && StatusChar(status[1]) && status != "  "
  }

  /** Renames and copies are followed by a second record. */
  predicate TwoRecords(status: string) { 'R' in status || 'C' in status }

  /** A status is two of ten characters, not both blank; one with a rename or a copy in it takes a second record. */
  lemma StatusIs(status: string)
    ensures ValidStatus(status) <==>
      |status| == 2 && status != "  " &&
      forall i :: 0 <= i < 2 ==> status[i] in {' ', 'M', 'T', 'A', 'D', 'R', 'C', 'U', '?', '!'}
    ensures |status| == 2 ==>
      (TwoRecords(status) <==> status[0] == 'R' || status[0] == 'C' || status[1] == 'R' || status[1] == 'C')
  {
  }

  predicate NulFree(s: string) { NUL !in s }

  predicate ValidEntry(e: Entry) {
    ValidStatus(e.status) && e.path != "" && NulFree(e.path) &&
    (e.original.Some? <==> TwoRecords(e.status)) &&
    (e.original.Some? ==> e.original.value != "" && NulFree(e.original.value))
  }

  predicate ValidEntries(entries: seq<Entry>) { forall i :: 0 <= i < |entries| ==> ValidEntry(entries[i]) }

  // ----- The format

  function EntryRecords(e: Entry): seq<string> {
    [e.status + " " + e.path] + (if e.original.Some? then [e.original.value] else [])
  }

  function RecordsOf(entries: seq<Entry>): seq<string> {
    if entries == [] then [] else EntryRecords(entries[0]) + RecordsOf(entries[1..])
  }

  /** Every record ends in a NUL. */
  function Terminated(records: seq<string>): string {
    if records == [] then "" else records[0] + [NUL] + Terminated(records[1..])
  }

  /** The porcelain form of a list of entries. */
  function Encode(entries: seq<Entry>): string { Terminated(RecordsOf(entries)) }

  // ----- The reader

  /** `s.split(separator)`. */
  function Split(s: string, separator: char): (r: seq<string>)
    ensures r != []
  {
    if s == "" then [""]
    else
      var rest := Split(s[1..], separator);
      if s[0] == separator then [""] + rest else [[s[0]] + rest[0]] + rest[1..]
  }

  predicate EntryRecord(record: string) {
    |record| >= 4 && record[2] == ' ' && ValidStatus(record[..2])
  }

  /** What the records say, or nothing when one of them is out of place. */
  function ReadRecords(records: seq<string>): Option<seq<Entry>> {
    if records == [] then Some([])
    else if !EntryRecord(records[0]) then None
    else
      var status, path := records[0][..2], records[0][3..];
      if TwoRecords(status) then
        if |records| < 2 || records[1] == "" then None
        else Cons(Entry(status, path, Some(records[1])), ReadRecords(records[2..]))
      else
        Cons(Entry(status, path, None), ReadRecords(records[1..]))
  }

  function Cons(e: Entry, rest: Option<seq<Entry>>): Option<seq<Entry>> {
    match rest
    case Some(entries) => Some([e] + entries)
    case None => None
  }

  function Read(s: string): Option<seq<Entry>> {
    if s == "" then Some([])
    else if s[|s| - 1] != NUL then None
    else ReadRecords(Split(s[..|s| - 1], NUL))
  }

  function Paths(entries: seq<Entry>): seq<string> {
    if entries == [] then []
    else
      var e := entries[0];
      [e.path] + (if e.original.Some? then [e.original.value] else []) + Paths(entries[1..])
  }

  // ----- Splitting undoes terminating

  lemma {:induction false} SplitFirst(record: string, separator: char, rest: string)
    requires separator !in record
    ensures Split(record, separator) == [record]
    ensures Split(record + [separator] + rest, separator) == [record] + Split(rest, separator)
  {
    var s := record + [separator] + rest;
    if record == "" {
      assert s == [separator] + rest;
    } else {
      SplitFirst(record[1..], separator, rest);
      assert s[1..] == record[1..] + [separator] + rest && record == [record[0]] + record[1..];
    }
  }

  lemma {:induction false} SplitTerminated(records: seq<string>)
    requires records != [] && forall i :: 0 <= i < |records| ==> NulFree(records[i])
    ensures var s := Terminated(records); s != "" && s[|s| - 1] == NUL && Split(s[..|s| - 1], NUL) == records
  {
    var s := Terminated(records);
    var tail := Terminated(records[1..]);
    assert s == records[0] + [NUL] + tail;
    if |records| == 1 {
      SplitFirst(records[0], NUL, "");
      assert s[..|s| - 1] == records[0];
    } else {
      SplitTerminated(records[1..]);
      SplitFirst(records[0], NUL, tail[..|tail| - 1]);
      assert s[..|s| - 1] == records[0] + [NUL] + tail[..|tail| - 1];
    }
  }

  lemma {:induction false} TerminatedSplit(s: string)
    ensures Terminated(Split(s, NUL)) == s + [NUL]
    ensures forall i :: 0 <= i < |Split(s, NUL)| ==> NulFree(Split(s, NUL)[i])
  {
    if s != "" {
      TerminatedSplit(s[1..]);
      assert s == [s[0]] + s[1..];
      var rest := Split(s[1..], NUL);
      var records := Split(s, NUL);
      assert Terminated(rest) == rest[0] + [NUL] + Terminated(rest[1..]);
      if s[0] != NUL {
        assert records[1..] == rest[1..];
        assert Terminated(records) == [s[0]] + rest[0] + [NUL] + Terminated(rest[1..]);
        assert Terminated(records) == [s[0]] + (rest[0] + [NUL] + Terminated(rest[1..]));
      } else {
        assert records[1..] == rest;
      }
    }
  }

  // ----- The reader is the inverse of the format

  lemma EntryRecordsNulFree(e: Entry)
    requires ValidEntry(e)
    ensures forall i :: 0 <= i < |EntryRecords(e)| ==> NulFree(EntryRecords(e)[i])
  {
    assert StatusChar(e.status[0]) && StatusChar(e.status[1]);
  }

  lemma {:induction false} RecordsNulFree(entries: seq<Entry>)
    requires ValidEntries(entries)
    ensures forall i :: 0 <= i < |RecordsOf(entries)| ==> NulFree(RecordsOf(entries)[i])
    ensures entries != [] ==> RecordsOf(entries) != []
  {
    hide NulFree, ValidEntry, EntryRecords;
    if entries != [] {
      EntryRecordsNulFree(entries[0]);
      RecordsNulFree(entries[1..]);
      assert |EntryRecords(entries[0])| > 0 by { EntryRecordsCount(entries[0]); }
    }
  }

  lemma EntryRecordsCount(e: Entry)
    ensures |EntryRecords(e)| == if e.original.Some? then 2 else 1
  {
  }

  lemma {:induction false} ReadsRecordsOf(entries: seq<Entry>)
    requires ValidEntries(entries)
    ensures ReadRecords(RecordsOf(entries)) == Some(entries)
  {
    if entries != [] {
      var e, records := entries[0], RecordsOf(entries);
      assert ValidEntry(e);
      ReadsRecordsOf(entries[1..]);
      var first := e.status + " " + e.path;
      assert records[0] == first && first[..2] == e.status && first[3..] == e.path && first[2] == ' ';
      assert records[|EntryRecords(e)|..] == RecordsOf(entries[1..]);
      assert entries == [e] + entries[1..];
    }
  }

  lemma {:induction false} ReadRecordsAre(records: seq<string>)
    requires ReadRecords(records).Some? && forall i :: 0 <= i < |records| ==> NulFree(records[i])
    ensures ValidEntries(ReadRecords(records).value) && RecordsOf(ReadRecords(records).value) == records
  {
    if records != [] {
      var entries := ReadRecords(records).value;
      var e := entries[0];
      var n := |EntryRecords(e)|;
      var record := records[0];
      assert record == record[..2] + " " + record[3..];
      assert NulFree(records[0]) && (n == 2 ==> NulFree(records[1]));
      assert ValidEntry(e) && EntryRecords(e) == records[..n];
      assert entries[1..] == ReadRecords(records[n..]).value;
      ReadRecordsAre(records[n..]);
      assert records == records[..n] + records[n..];
    }
  }

  /** Encoding entries and reading the result gives the entries back. */
  lemma ReadsEncoded(entries: seq<Entry>)
    requires ValidEntries(entries)
    ensures Read(Encode(entries)) == Some(entries)
  {
    hide ValidEntry, EntryRecords, NulFree;
    if entries != [] {
      RecordsNulFree(entries);
      SplitTerminated(RecordsOf(entries));
      ReadsRecordsOf(entries);
    }
  }

  /** What is read is a list of valid entries, and encodes to exactly the input. */
  lemma ReadEncodes(s: string)
    requires Read(s).Some?
    ensures ValidEntries(Read(s).value) && Encode(Read(s).value) == s
  {
    hide ValidEntry, EntryRecords, NulFree, ReadRecords;
    if s != "" {
      TerminatedSplit(s[..|s| - 1]);
      ReadRecordsAre(Split(s[..|s| - 1], NUL));
      assert s == s[..|s| - 1] + [NUL];
    } else {
      assert ReadRecords([]) == Some([]) by { EmptyRead(); }
    }
  }

  lemma EmptyRead()
    ensures ReadRecords([]) == Some([]) && Encode([]) == ""
  {
  }

  predicate Encodes(entries: seq<Entry>, s: string) { ValidEntries(entries) && Encode(entries) == s }

  /** The accepted language, exactly: the encodings of valid entry lists, each of one list only. */
  lemma AcceptsExactly(s: string)
    ensures Read(s).Some? <==> exists entries :: Encodes(entries, s)
    ensures forall entries :: Encodes(entries, s) ==> Read(s) == Some(entries)
  {
    hide Read, Encode, ValidEntries;
    if Read(s).Some? {
      ReadEncodes(s);
      assert Encodes(Read(s).value, s);
    }
    forall entries | Encodes(entries, s) ensures Read(s) == Some(entries) {
      ReadsEncoded(entries);
    }
  }

  // ----- Sorted, without repeats

  function Distinct(s: seq<string>): (r: seq<string>)
    ensures forall x :: x in r <==> x in s
    ensures forall i, j :: 0 <= i < j < |r| ==> r[i] != r[j]
  {
    if s == [] then []
    else
      var d, last := Distinct(s[..|s| - 1]), s[|s| - 1];
      assert s == s[..|s| - 1] + [last];
      if last in d then d else d + [last]
  }

  function SortedDistinct(s: seq<string>): seq<string> { Sort(Distinct(s), StringLe) }

  predicate StringLt(x: string, y: string) { StringLe(x, y) && x != y }

  ghost predicate StrictlySorted(s: seq<string>) { forall i, j :: 0 <= i < j < |s| ==> StringLt(s[i], s[j]) }

  ghost predicate SameElements(s: seq<string>, t: seq<string>) { forall x :: x in s <==> x in t }

  lemma {:induction false} CountDistinct(s: seq<string>, x: string)
    requires forall i, j :: 0 <= i < j < |s| ==> s[i] != s[j]
    ensures multiset(s)[x] == if x in s then 1 else 0
  {
    if s != [] {
      CountDistinct(s[1..], x);
      assert s == [s[0]] + s[1..];
    }
  }

  lemma SameElementsSameMultiset(s: seq<string>, t: seq<string>)
    requires SameElements(s, t)
    requires forall i, j :: 0 <= i < j < |s| ==> s[i] != s[j]
    requires forall i, j :: 0 <= i < j < |t| ==> t[i] != t[j]
    ensures multiset(s) == multiset(t)
  {
    forall x ensures multiset(s)[x] == multiset(t)[x] {
      CountDistinct(s, x);
      CountDistinct(t, x);
      assert x in s <==> x in t;
    }
  }

  lemma SortedDistinctIs(s: seq<string>)
    ensures StrictlySorted(SortedDistinct(s)) && SameElements(SortedDistinct(s), s)
  {
    hide Sort, StringLe;
    StringOrder();
    var d := Distinct(s);
    SortPermutes(d, StringLe);
    SortSorts(d, StringLe);
    var r := Sort(d, StringLe);
    SameMembers(d, r);
    forall i, j | 0 <= i < j < |r| ensures StringLt(r[i], r[j]) {
      if r[i] == r[j] {
        TwiceIn(r, i, j);
        CountDistinct(d, r[i]);
        assert false;
      }
    }
  }

  lemma TwiceIn(r: seq<string>, i: nat, j: nat)
    requires i < j < |r| && r[i] == r[j]
    ensures multiset(r)[r[i]] >= 2
  {
    assert r == r[..j] + [r[j]] + r[j + 1..];
    assert r[i] in r[..j];
    assert r[i] in multiset(r[..j]);
  }

  /** Only the set of strings matters. */
  lemma SortedDistinctSameSet(s: seq<string>, t: seq<string>)
    requires SameElements(s, t)
    ensures SortedDistinct(s) == SortedDistinct(t)
  {
    hide Sort, StringLe;
    StringOrder();
    SameElementsSameMultiset(Distinct(s), Distinct(t));
    SortOfPermutation(Distinct(s), Distinct(t), StringLe);
  }

  lemma {:induction false} DistinctOfDistinct(r: seq<string>)
    requires forall i, j :: 0 <= i < j < |r| ==> r[i] != r[j]
    ensures Distinct(r) == r
  {
    if r != [] {
      DistinctOfDistinct(r[..|r| - 1]);
      assert r == r[..|r| - 1] + [r[|r| - 1]];
    }
  }

  /** A strictly increasing list is the only one with its elements. */
  lemma StrictlySortedUnique(r: seq<string>, s: seq<string>)
    requires StrictlySorted(r) && SameElements(r, s)
    ensures r == SortedDistinct(s)
  {
    hide Sort, StringLe, Distinct;
    StringOrder();
    SortedDistinctSameSet(r, s);
    DistinctOfDistinct(r) by {
      forall i, j | 0 <= i < j < |r| ensures r[i] != r[j] { assert StringLt(r[i], r[j]); }
    }
    SortPermutes(r, StringLe);
    SortSorts(r, StringLe);
    assert SortedBy(r, StringLe) by {
      forall i, j | 0 <= i < j < |r| ensures StringLe(r[i], r[j]) { assert StringLt(r[i], r[j]); }
    }
    SortedUnique(Sort(r, StringLe), r, StringLe);
  }

  // ----- The reader as it is written

  /** The sorted, repeat-free list of every path mentioned, or nothing when the output is not porcelain. */
  method ParseGitPorcelain(decoded: string) returns (files: Option<seq<string>>)
    ensures files.Some? <==> exists entries :: Encodes(entries, decoded)
    ensures forall entries :: Encodes(entries, decoded) ==>
      files.Some? && StrictlySorted(files.value) && SameElements(files.value, Paths(entries))
  {
    hide Encodes, SortedDistinct, ReadRecords, StrictlySorted, SameElements, Paths, ValidStatus;
    AcceptsExactly(decoded);
    if decoded == "" {
      SortedDistinctIs([]);
      assert SortedDistinct([]) == [] && Paths([]) == [] by { NoPaths(); }
      return Some([]);
    }
    if decoded[|decoded| - 1] != NUL {
      return None;
    }
    var records := Split(decoded[..|decoded| - 1], NUL);
    var found: seq<string> := [];
    var index := 0;
    ghost var whole := ReadRecords(records);
    while index < |records|
      invariant 0 <= index <= |records|
      invariant whole.Some? <==> ReadRecords(records[index..]).Some?
      invariant whole.Some? ==> Paths(whole.value) == found + Paths(ReadRecords(records[index..]).value)
    {
      var record := records[index];
      ReadFirst(records[index..]);
      ghost var before := records[index..];
      if !EntryRecord(record) {
        return None;
      }
      var status, path := record[..2], record[3..];
      found := found + [path];
      index := index + 1;
      if TwoRecords(status) {
        if index == |records| || records[index] == "" {
          return None;
        }
        found := found + [records[index]];
        index := index + 1;
        assert records[index..] == before[2..];
      } else {
        assert records[index..] == before[1..];
      }
    }
    assert records[index..] == [];
    assert ReadRecords([]) == Some([]) && Paths([]) == [] by { EmptyRead(); NoPaths(); }
    assert found + [] == found;
    SortedDistinctIs(found);
    return Some(SortedDistinct(found));
  }

  lemma NoPaths()
    ensures SortedDistinct([]) == [] && Paths([]) == []
  {
  }

  /** What the first record decides about the rest. */
  lemma ReadFirst(records: seq<string>)
    requires records != []
    ensures !EntryRecord(records[0]) ==> ReadRecords(records).None?
    ensures EntryRecord(records[0]) && !TwoRecords(records[0][..2]) ==>
      (ReadRecords(records).Some? <==> ReadRecords(records[1..]).Some?) &&
      (ReadRecords(records).Some? ==>
        Paths(ReadRecords(records).value) == [records[0][3..]] + Paths(ReadRecords(records[1..]).value))
    ensures EntryRecord(records[0]) && TwoRecords(records[0][..2]) ==>
      (ReadRecords(records).Some? <==> |records| > 1 && records[1] != "" && ReadRecords(records[2..]).Some?) &&
      (ReadRecords(records).Some? ==>
        Paths(ReadRecords(records).value) == [records[0][3..], records[1]] + Paths(ReadRecords(records[2..]).value))
  {
    hide Paths, TwoRecords, ValidStatus;
    if EntryRecord(records[0]) {
      var status, path := records[0][..2], records[0][3..];
      if !TwoRecords(status) {
        var rest := ReadRecords(records[1..]);
        if rest.Some? {
          PathsCons(Entry(status, path, None), rest.value);
        }
      } else if |records| > 1 && records[1] != "" {
        var rest := ReadRecords(records[2..]);
        if rest.Some? {
          PathsCons(Entry(status, path, Some(records[1])), rest.value);
        }
      }
    }
  }

  lemma PathsCons(e: Entry, entries: seq<Entry>)
    ensures Paths([e] + entries) ==
      (if e.original.Some? then [e.path, e.original.value] else [e.path]) + Paths(entries)
  {
    assert ([e] + entries)[1..] == entries;
  }
}
