/**
 From the server's list of a task's submissions to the judged pick. The server is not trusted:
 what counts is each submitter's commitment, read from the escrow, and the escrow's count.
 */
module OpenJudge {
  import opened Wrappers
  import opened Ranking
  import opened Sorting
  import opened Tournament
  import Decimal
  import JsonScanner

  const OUTPUT_CHARS: nat := 6000
  const MAX_LIST_EXCESS: nat := 50

  /** A submission's resultData: its output, when that is text, and its JSON. */
  datatype ResultData = ResultData(output: Option<string>, json: string)

  /** The evidence hash of a result and its storage id: an injective hash, so the pair itself. */
  datatype Evidence = Evidence(data: ResultData, rootHash: Option<string>)

  /** A kept result: its data, and where it is stored in full. */
  datatype Result = Result(data: ResultData, rootHash: Option<string>)

  /** One entry of the server's list. */
  datatype Listing = Listing(submitter: string, ordinal: int, result: Option<Result>)

  type Address = nat

  /** submissionOf, for every address that committed something; its size is submissionCount. */
  type Escrow = map<Address, Evidence>

  // ---- The committed set ----------------------------------------------------------------------

  /** The entries whose submitter committed something, in the order listed. */
  function RealOf(listed: seq<Listing>, escrow: Escrow, addressOf: string -> Address): (r: seq<Listing>)
    ensures |r| <= |listed|
    ensures forall s :: s in r <==> s in listed && addressOf(s.submitter) in escrow
  {
    if listed == [] then []
    else
      var last := |listed| - 1;
      assert listed == listed[..last] + [listed[last]];
      RealOf(listed[..last], escrow, addressOf) + (if addressOf(listed[last].submitter) in escrow then [listed[last]] else [])
  }

  /** No two entries name the same address. */
  ghost predicate DistinctAddresses(s: seq<Listing>, addressOf: string -> Address) {
    forall i, j :: 0 <= i < j < |s| ==> addressOf(s[i].submitter) != addressOf(s[j].submitter)
  }

  ghost function Addresses(s: seq<Listing>, addressOf: string -> Address): set<Address> {
    set e | e in s :: addressOf(e.submitter)
  }

  lemma {:induction false} AddressesAtMost(s: seq<Listing>, addressOf: string -> Address)
    ensures |Addresses(s, addressOf)| <= |s|
    ensures |Addresses(s, addressOf)| == |s| <==> DistinctAddresses(s, addressOf)
  {
    if s == [] {
      assert Addresses(s, addressOf) == {};
    } else {
      var last := |s| - 1;
      var front := s[..last];
      AddressesAtMost(front, addressOf);
      var a := addressOf(s[last].submitter);
      assert s == front + [s[last]];
      assert Addresses(s, addressOf) == Addresses(front, addressOf) + {a};
      if a in Addresses(front, addressOf) {
        assert Addresses(s, addressOf) == Addresses(front, addressOf);
      }
    }
  }

  /**
   Completeness against a server that lists what it likes: once at least as many entries are
   committed as the escrow counts, the kept entries are exactly the committed addresses, one each,
   if and only if no two of them name the same address.
   */
  lemma KeptListIsTheCommittedSet(listed: seq<Listing>, escrow: Escrow, addressOf: string -> Address)
    requires |RealOf(listed, escrow, addressOf)| >= |escrow|
    ensures var kept := RealOf(listed, escrow, addressOf);
            DistinctAddresses(kept, addressOf) <==> |kept| == |escrow| && Addresses(kept, addressOf) == escrow.Keys
  {
    var kept := RealOf(listed, escrow, addressOf);
    AddressesAtMost(kept, addressOf);
    assert Addresses(kept, addressOf) <= escrow.Keys;
    SubsetOfSameSize(Addresses(kept, addressOf), escrow.Keys);
    assert |escrow.Keys| == |escrow|;
  }

  // ---- The list as read -----------------------------------------------------------------------

  predicate Names(s: seq<Listing>, name: string) { exists i :: 0 <= i < |s| && LowerCase(s[i].submitter) == name }

  /** Map.set under the submitter in lower case: an entry already there keeps its place and takes the new value. */
  function PutListing(s: seq<Listing>, e: Listing): seq<Listing> {
    var name := LowerCase(e.submitter);
    if Names(s, name) then seq(|s|, i requires 0 <= i < |s| => if LowerCase(s[i].submitter) == name then e else s[i])
    else s + [e]
  }

  /** No two entries have a submitter of the same text, in lower case. */
  predicate NamedOnce(s: seq<Listing>) {
    forall i, j :: 0 <= i < j < |s| ==> LowerCase(s[i].submitter) != LowerCase(s[j].submitter)
  }

  lemma PuttingKeepsNames(s: seq<Listing>, e: Listing)
    requires NamedOnce(s)
    ensures NamedOnce(PutListing(s, e))
    ensures forall name :: Names(PutListing(s, e), name) <==> Names(s, name) || name == LowerCase(e.submitter)
  {
    var r := PutListing(s, e);
    if Names(s, LowerCase(e.submitter)) {
      assert forall i :: 0 <= i < |s| ==> LowerCase(r[i].submitter) == LowerCase(s[i].submitter);
    } else {
      NamesOfBoth(s, e);
    }
  }

  lemma NamesOfBoth(s: seq<Listing>, e: Listing)
    ensures forall name :: Names(s + [e], name) <==> Names(s, name) || name == LowerCase(e.submitter)
  {
    var all := s + [e];
    assert all[|s|] == e;
    forall name | Names(s, name)
      ensures Names(all, name)
    {
      var i :| 0 <= i < |s| && LowerCase(s[i].submitter) == name;
      assert all[i] == s[i];
    }
  }

  /** The entries of all pages, once per submitter. */
  function Deduped(entries: seq<Listing>): seq<Listing> {
    if entries == [] then [] else PutListing(Deduped(entries[..|entries| - 1]), entries[|entries| - 1])
  }

  /** Every text is kept, once. */
  lemma {:induction false} DedupedNamesOnce(entries: seq<Listing>)
    ensures NamedOnce(Deduped(entries)) && forall name :: Names(Deduped(entries), name) <==> Names(entries, name)
  {
    if entries == [] {
    } else {
      var last := |entries| - 1;
      DedupedNamesOnce(entries[..last]);
      PuttingKeepsNames(Deduped(entries[..last]), entries[last]);
      NamesOfBoth(entries[..last], entries[last]);
      assert entries == entries[..last] + [entries[last]];
    }
  }

  /** The last entry of its submitter. */
  predicate IsLatest(entries: seq<Listing>, e: Listing) {
    exists i :: 0 <= i < |entries| && entries[i] == e && !Names(entries[i + 1..], LowerCase(e.submitter))
  }

  lemma LatestOfMore(entries: seq<Listing>, e: Listing, last: Listing)
    requires IsLatest(entries, e) && LowerCase(e.submitter) != LowerCase(last.submitter)
    ensures IsLatest(entries + [last], e)
  {
    var i :| 0 <= i < |entries| && entries[i] == e && !Names(entries[i + 1..], LowerCase(e.submitter));
    var all := entries + [last];
    assert all[i + 1..] == entries[i + 1..] + [last];
    NamesOfBoth(entries[i + 1..], last);
    assert all[i] == e;
  }

  /** What is kept of a submitter is the last entry it was listed with. */
  lemma {:induction false} LatestIsKept(entries: seq<Listing>)
    ensures forall e :: e in Deduped(entries) ==> IsLatest(entries, e)
  {
    if entries == [] {
    } else {
      var last := |entries| - 1;
      var front, e := entries[..last], entries[last];
      LatestIsKept(front);
      assert entries == front + [e];
      forall x | x in Deduped(entries)
        ensures IsLatest(entries, x)
      {
        if x == e {
          assert entries[last + 1..] == [];
          assert entries[last] == e && !Names(entries[last + 1..], LowerCase(e.submitter));
        } else {
          assert x in Deduped(front) && LowerCase(x.submitter) != LowerCase(e.submitter);
          LatestOfMore(front, x, e);
        }
      }
    }
  }

  /** The submitters kept are in the order they were first listed in: those of fewer entries come first. */
  lemma {:induction false} KeptInTheOrderListed(entries: seq<Listing>, n: nat)
    requires n <= |entries|
    ensures |Deduped(entries[..n])| <= |Deduped(entries)|
    ensures forall i :: 0 <= i < |Deduped(entries[..n])| ==>
              LowerCase(Deduped(entries)[i].submitter) == LowerCase(Deduped(entries[..n])[i].submitter)
  {
    if n == |entries| {
      assert entries[..n] == entries;
    } else {
      KeptInTheOrderListed(entries[..|entries| - 1], n);
      assert entries[..|entries| - 1][..n] == entries[..n];
    }
  }

  /** A page of the list: its entries, and the cursor of the next, None after the last. */
  datatype Page = Page(entries: seq<Listing>, next: Option<nat>)

  /** The cursor of the n-th page, if the list has one. */
  function CursorAt(page: nat -> Page, n: nat): Option<nat> {
    if n == 0 then Some(0)
    else
      match CursorAt(page, n - 1)
      case None => None
      case Some(cursor) => page(cursor).next
  }

  /** The entries of the first `n` pages. */
  function EntriesUpto(page: nat -> Page, n: nat): seq<Listing> {
    if n == 0 then []
    else
      match CursorAt(page, n - 1)
      case None => EntriesUpto(page, n - 1)
      case Some(cursor) => EntriesUpto(page, n - 1) + page(cursor).entries
  }

  function Min(a: nat, b: nat): nat { if a < b then a else b }

  /** Every page holds what the list does from its cursor on, `size` entries at most, and leads on to the rest. */
  ghost predicate Serves(page: nat -> Page, list: seq<Listing>, size: nat) {
    forall cursor: nat :: cursor <= |list| ==>
      var end := Min(cursor + size, |list|);
      page(cursor) == Page(list[cursor..end], if end < |list| then Some(end) else None)
  }

  /** A list served page by page is read in its order, each entry once, and whole exactly once no page is left. */
  lemma {:induction false} ServedListIsReadWhole(page: nat -> Page, list: seq<Listing>, size: nat, n: nat)
    requires size > 0 && Serves(page, list, size)
    ensures EntriesUpto(page, n) == list[..Min(n * size, |list|)]
    ensures CursorAt(page, n) == if n == 0 || n * size < |list| then Some(n * size) else None
  {
    if n == 0 {
      assert list[..0] == [];
    } else {
      ServedListIsReadWhole(page, list, size, n - 1);
      assert n * size == (n - 1) * size + size;
      OnePageMore(page, list, size, n - 1, (n - 1) * size);
    }
  }

  /** The page at `cursor`, where the list was read up to. */
  lemma OnePageMore(page: nat -> Page, list: seq<Listing>, size: nat, n: nat, cursor: nat)
    requires size > 0 && Serves(page, list, size)
    requires EntriesUpto(page, n) == list[..Min(cursor, |list|)]
    requires CursorAt(page, n) == if n == 0 || cursor < |list| then Some(cursor) else None
    requires n == 0 ==> cursor == 0
    ensures EntriesUpto(page, n + 1) == list[..Min(cursor + size, |list|)]
    ensures CursorAt(page, n + 1) == if cursor + size < |list| then Some(cursor + size) else None
  {
    if n == 0 || cursor < |list| {
      var end := Min(cursor + size, |list|);
      assert page(cursor).entries == list[cursor..end];
      assert list[..cursor] + list[cursor..end] == list[..end];
    }
  }

  /**
   fetchOpenSubmissions: the entries of the first `n` pages, once per submitter: all of them, or enough
   to hold `maxEntries`. None when there are more pages than may be read.
   */
  method FetchOpenSubmissions(page: nat -> Page, maxEntries: nat, maxPages: nat) returns (listed: Option<seq<Listing>>, ghost n: nat)
    ensures n <= maxPages
    ensures listed.Some? ==>
              && NamedOnce(listed.value) && listed.value == Deduped(EntriesUpto(page, n))
              && (CursorAt(page, n).None? || |listed.value| >= maxEntries)
    ensures listed.None? ==> n == maxPages && CursorAt(page, n).Some?
  {
    var kept: seq<Listing>, cursor: nat := [], 0;
    n := 0;
    for i := 0 to maxPages
      invariant n == i && CursorAt(page, n) == Some(cursor) && kept == Deduped(EntriesUpto(page, n))
    {
      var p := page(cursor);
      kept := PutEach(EntriesUpto(page, n), kept, p.entries);
      n := n + 1;
      if p.next.None? || |kept| >= maxEntries {
        DedupedNamesOnce(EntriesUpto(page, n));
        return Some(kept), n;
      }
      cursor := p.next.value;
    }
    listed := None;
  }

  method PutEach(ghost before: seq<Listing>, met: seq<Listing>, entries: seq<Listing>) returns (kept: seq<Listing>)
    requires met == Deduped(before)
    ensures kept == Deduped(before + entries)
  {
    kept := met;
    assert before + entries[..0] == before;
    for i := 0 to |entries|
      invariant kept == Deduped(before + entries[..i])
    {
      assert (before + entries[..i + 1])[..|before| + i] == before + entries[..i];
      kept := PutListing(kept, entries[i]);
    }
    assert entries[..|entries|] == entries;
  }

  /**
   Two texts that differ in lower case may be one address, as with and without the leading 0x. Then a
   list of both stands in for two submissions, and one that is committed is left out unseen.
   */
  lemma OneAddressUnderTwoTexts(t: string, u: string, addressOf: string -> Address, hidden: Address, x: Evidence, y: Evidence)
    requires LowerCase(t) != LowerCase(u) && addressOf(t) == addressOf(u) && addressOf(t) != hidden
    ensures var escrow: Escrow := map[addressOf(t) := x, hidden := y];
            var listed := Deduped([Listing(t, 0, None), Listing(u, 1, None)]);
            var kept := RealOf(listed, escrow, addressOf);
            && |escrow| == 2 && |kept| == 2
            && hidden in escrow && hidden !in Addresses(kept, addressOf)
  {
    var escrow: Escrow := map[addressOf(t) := x, hidden := y];
    assert escrow.Keys == {addressOf(t), hidden};
    assert |escrow| == |escrow.Keys| == 2;
    var a, b := Listing(t, 0, None), Listing(u, 1, None);
    BothAreListed(a, b);
    BothAreReal(a, b, escrow, addressOf);
  }

  lemma BothAreListed(a: Listing, b: Listing)
    requires LowerCase(a.submitter) != LowerCase(b.submitter)
    ensures Deduped([a, b]) == [a, b]
  {
    assert [a, b][..1] == [a] && [a][..0] == [];
    assert Deduped([a]) == [a];
    assert !Names([a], LowerCase(b.submitter));
    assert [a] + [b] == [a, b];
  }

  lemma BothAreReal(a: Listing, b: Listing, escrow: Escrow, addressOf: string -> Address)
    requires addressOf(a.submitter) in escrow && addressOf(b.submitter) in escrow
    ensures RealOf([a, b], escrow, addressOf) == [a, b]
  {
    assert [a, b][..1] == [a] && [a][..0] == [];
    assert RealOf([a], escrow, addressOf) == [a];
  }

  // ---- Order, refusals and the cut ------------------------------------------------------------

  function Ordinal(e: Listing): int { e.ordinal }

  /** The submissions in the order the escrow counted them. */
  function ByOrdinal(s: seq<Listing>): seq<Listing> { SortBy(s, Ordinal) }

  function Without(s: seq<Listing>, refused: set<string>): (r: seq<Listing>)
    ensures |r| <= |s|
    ensures forall e :: e in r <==> e in s && LowerCase(e.submitter) !in refused
  {
    if s == [] then []
    else
      var last := |s| - 1;
      assert s == s[..last] + [s[last]];
      Without(s[..last], refused) + (if LowerCase(s[last].submitter) !in refused then [s[last]] else [])
  }

  function Only(s: seq<Listing>, refused: set<string>): (r: seq<Listing>)
    ensures |r| + |Without(s, refused)| == |s|
    ensures forall e :: e in r <==> e in s && LowerCase(e.submitter) in refused
  {
    if s == [] then []
    else
      var last := |s| - 1;
      assert s == s[..last] + [s[last]];
      Only(s[..last], refused) + (if LowerCase(s[last].submitter) in refused then [s[last]] else [])
  }

  lemma {:induction false} RefusedCountIsOrderFree(a: seq<Listing>, b: seq<Listing>, refused: set<string>)
    requires multiset(a) == multiset(b)
    ensures |Without(a, refused)| == |Without(b, refused)|
  {
    WithoutAsMultiset(a, refused);
    WithoutAsMultiset(b, refused);
    var wa, wb := multiset(Without(a, refused)), multiset(Without(b, refused));
    assert wa == wb by {
      forall e: Listing
        ensures wa[e] == wb[e]
      {
      }
    }
    assert |wa| == |Without(a, refused)| && |wb| == |Without(b, refused)|;
  }

  lemma {:induction false} WithoutAsMultiset(s: seq<Listing>, refused: set<string>)
    ensures forall e: Listing :: multiset(Without(s, refused))[e] == if LowerCase(e.submitter) in refused then 0 else multiset(s)[e]
  {
    if s == [] {
    } else {
      var last := |s| - 1;
      assert s == s[..last] + [s[last]];
      WithoutAsMultiset(s[..last], refused);
    }
  }

  // ---- Checking results against their commitments ---------------------------------------------

  /** Why a submission is not judged. */
  datatype Why =
    | NotCommittedResult | UncheckableStore | StorageUnreadable | TooLarge | NotStoredContent
    | Unreadable | FailedChecks | RefusedWinner | BeyondTheFirst60

  /** A stored result as downloaded: whether it is too large, whether its bytes are what its id names, its text. */
  datatype Blob = Blob(tooLarge: bool, isContent: bool, text: string)

  /** A submission after the check: why it cannot be judged, or the full text read from storage. */
  datatype Checked = Checked(listing: Listing, why: Option<Why>, stored: Option<string>)

  function Is64Hex(s: string): bool {
    var h := if |s| >= 2 && s[..2] == "0x" then s[2..] else s;
    Is64Digits(h)
  }

  lemma HexDigitsAre(c: char)
    ensures JsonScanner.IsHex(c) <==> c in "0123456789abcdefABCDEF"
  {
    var digits := "0123456789abcdefABCDEF";
    if '0' <= c <= '9' {
      assert digits[c as int - '0' as int] == c;
    } else if 'a' <= c <= 'f' {
      assert digits[10 + c as int - 'a' as int] == c;
    } else if 'A' <= c <= 'F' {
      assert digits[16 + c as int - 'A' as int] == c;
    }
  }

  /** 64 of them. */
  predicate Is64Digits(h: string) { |h| == 64 && forall i :: 0 <= i < 64 ==> JsonScanner.IsHex(h[i]) }

  /** An id can be checked when it is 64 hexadecimal digits, with 0x before them or without. */
  lemma RootsAre64Digits(s: string)
    ensures Is64Hex(s) <==> exists h :: Is64Digits(h) && (s == h || s == "0x" + h)
  {
    if Is64Hex(s) {
      if |s| >= 2 && s[..2] == "0x" {
        var h := s[2..];
        assert Is64Digits(h) && s == "0x" + h;
      } else {
        assert Is64Digits(s);
      }
    }
    if h :| Is64Digits(h) && (s == h || s == "0x" + h) {
      if s == h {
        assert JsonScanner.IsHex(h[1]) && s[..2][1] == h[1];
      } else {
        assert s[..2] == "0x" && s[2..] == h;
      }
    }
  }

  /** What is not judged of a submission as committed, short of the download; None when its stored text is needed. */
  function BeforeDownload(s: Listing, committed: Evidence): Option<Checked> {
    match s.result
    case None => Some(Checked(s, None, None))
    case Some(r) =>
      if committed != Evidence(r.data, r.rootHash) then Some(Checked(s, Some(NotCommittedResult), None))
      else if r.rootHash.None? || r.rootHash.value == "" then Some(Checked(s, None, None))
      else if !Is64Hex(r.rootHash.value) then Some(Checked(s, Some(UncheckableStore), None))
      else None
  }

  function AfterDownload(s: Listing, blob: Blob): Checked {
    if blob.tooLarge then Checked(s, Some(TooLarge), None)
    else if !blob.isContent then Checked(s, Some(NotStoredContent), None)
    else Checked(s, None, Some(blob.text))
  }

  /** The id a result is stored in full under; "" when it is not. */
  function RootOf(s: Listing): string {
    if s.result.Some? && s.result.value.rootHash.Some? then s.result.value.rootHash.value else ""
  }

  predicate IsCommitted(s: Listing, committed: Evidence) {
    s.result.Some? && committed == Evidence(s.result.value.data, s.result.value.rootHash)
  }

  /** The stored text of a committed result is missing, and its root is not given up on. */
  predicate Waits(s: Listing, committed: Evidence, blob: Option<Blob>, giveUpOn: set<string>) {
    IsCommitted(s, committed) && RootOf(s) != "" && Is64Hex(RootOf(s)) && blob.None? && LowerCase(RootOf(s)) !in giveUpOn
  }

  /**
   A result is judged exactly when it is the one committed and, when it is stored in full, on the
   stored text itself: never on a result the server swapped, nor on a stand-in for the stored one.
   */
  ghost predicate RightVerdict(c: Checked, committed: Evidence, blob: Option<Blob>, giveUpOn: set<string>) {
    var s := c.listing;
    if s.result.None? then c.why.None? && c.stored.None?
    else
      && (c.why == Some(NotCommittedResult) <==> !IsCommitted(s, committed))
      && (IsCommitted(s, committed) && RootOf(s) == "" ==> c.why.None? && c.stored.None?)
      && (IsCommitted(s, committed) && RootOf(s) != "" ==>
            && (c.why.None? <==> Is64Hex(RootOf(s)) && blob.Some? && !blob.value.tooLarge && blob.value.isContent)
            && (c.why.None? ==> c.stored == Some(blob.value.text))
            && (c.why == Some(UncheckableStore) <==> !Is64Hex(RootOf(s)))
            && (c.why == Some(StorageUnreadable) <==> Is64Hex(RootOf(s)) && blob.None? && LowerCase(RootOf(s)) in giveUpOn)
            && (c.why == Some(TooLarge) <==> Is64Hex(RootOf(s)) && blob.Some? && blob.value.tooLarge)
            && (c.why == Some(NotStoredContent) <==> Is64Hex(RootOf(s)) && blob.Some? && !blob.value.tooLarge && !blob.value.isContent))
  }

  /** What the check makes of one submission whose stored text, when it is needed, is `blob`. */
  function CheckOne(s: Listing, committed: Evidence, blob: Option<Blob>, giveUpOn: set<string>): Checked {
    var early := BeforeDownload(s, committed);
    if early.Some? then early.value
    else if blob.Some? then AfterDownload(s, blob.value)
    else if LowerCase(RootOf(s)) in giveUpOn then Checked(s, Some(StorageUnreadable), None)
    else Checked(s, None, None)
  }

  lemma CheckIsRight(s: Listing, committed: Evidence, blob: Option<Blob>, giveUpOn: set<string>)
    ensures CheckOne(s, committed, blob, giveUpOn).listing == s
    ensures !Waits(s, committed, blob, giveUpOn) ==> RightVerdict(CheckOne(s, committed, blob, giveUpOn), committed, blob, giveUpOn)
  {
  }

  /** What the check is given: the escrow, and the i-th submission's download. */
  datatype Source = Source(escrow: Escrow, addressOf: string -> Address, download: (nat, string) -> Option<Blob>)

  predicate AreCommitted(subs: seq<Listing>, from: Source) {
    forall i :: 0 <= i < |subs| ==> from.addressOf(subs[i].submitter) in from.escrow
  }

  function CheckedAll(subs: seq<Listing>, from: Source, giveUpOn: set<string>): (r: seq<Checked>)
    requires AreCommitted(subs, from)
    ensures |r| == |subs|
    ensures forall i :: 0 <= i < |subs| ==>
              r[i] == CheckOne(subs[i], from.escrow[from.addressOf(subs[i].submitter)], from.download(i, RootOf(subs[i])), giveUpOn)
  {
    if subs == [] then []
    else
      var last := |subs| - 1;
      CheckedAll(subs[..last], from, giveUpOn) +
      [CheckOne(subs[last], from.escrow[from.addressOf(subs[last].submitter)], from.download(last, RootOf(subs[last])), giveUpOn)]
  }

  /** The roots that could not be downloaded and are not given up on. */
  function FailedRoots(subs: seq<Listing>, from: Source, giveUpOn: set<string>): seq<string>
    requires AreCommitted(subs, from)
  {
    if subs == [] then []
    else
      var last := |subs| - 1;
      FailedRoots(subs[..last], from, giveUpOn) +
      (if WaitsAt(subs, last, from, giveUpOn) then [LowerCase(RootOf(subs[last]))] else [])
  }

  predicate WaitsAt(subs: seq<Listing>, i: nat, from: Source, giveUpOn: set<string>)
    requires i < |subs| && AreCommitted(subs, from)
  {
    Waits(subs[i], from.escrow[from.addressOf(subs[i].submitter)], from.download(i, RootOf(subs[i])), giveUpOn)
  }

  /** A root is waited for only when a committed result is stored under it and it is not given up on. */
  lemma {:induction false} FailedAreWaitedFor(subs: seq<Listing>, from: Source, giveUpOn: set<string>)
    requires AreCommitted(subs, from)
    ensures FailedRoots(subs, from, giveUpOn) == [] <==> forall i :: 0 <= i < |subs| ==> !WaitsAt(subs, i, from, giveUpOn)
    ensures forall root :: root in FailedRoots(subs, from, giveUpOn) ==> root !in giveUpOn && root in StoredRoots(from.escrow)
  {
    if subs == [] {
    } else {
      var last := |subs| - 1;
      var front := subs[..last];
      FailedAreWaitedFor(front, from, giveUpOn);
      assert forall i :: 0 <= i < last ==> WaitsAt(front, i, from, giveUpOn) == WaitsAt(subs, i, from, giveUpOn);
      if WaitsAt(subs, last, from, giveUpOn) {
        var a := from.addressOf(subs[last].submitter);
        assert from.escrow[a].rootHash == Some(RootOf(subs[last]));
      }
    }
  }

  /** Exactly the roots waited for. */
  lemma {:induction false} FailedRootsExactly(subs: seq<Listing>, from: Source, giveUpOn: set<string>, root: string)
    requires AreCommitted(subs, from)
    ensures root in FailedRoots(subs, from, giveUpOn) <==>
            exists i :: 0 <= i < |subs| && WaitsAt(subs, i, from, giveUpOn) && LowerCase(RootOf(subs[i])) == root
  {
    if subs == [] {
    } else {
      var last := |subs| - 1;
      var front := subs[..last];
      FailedRootsExactly(front, from, giveUpOn, root);
      forall i | 0 <= i < last
        ensures front[i] == subs[i] && (WaitsAt(front, i, from, giveUpOn) <==> WaitsAt(subs, i, from, giveUpOn))
      {
      }
    }
  }

  /** The roots the submitters committed. */
  function StoredRoots(escrow: Escrow): set<string> {
    set a | a in escrow && escrow[a].rootHash.Some? :: LowerCase(escrow[a].rootHash.value)
  }

  /** Every check not waited for is of its own listing, and right. */
  lemma ChecksAreRight(subs: seq<Listing>, from: Source, giveUpOn: set<string>)
    requires AreCommitted(subs, from)
    ensures var out := CheckedAll(subs, from, giveUpOn);
            forall i :: 0 <= i < |subs| ==>
              && out[i].listing == subs[i]
              && (WaitsAt(subs, i, from, giveUpOn) ||
                  RightVerdict(out[i], from.escrow[from.addressOf(subs[i].submitter)], from.download(i, RootOf(subs[i])), giveUpOn))
  {
    forall i | 0 <= i < |subs|
      ensures var c := CheckedAll(subs, from, giveUpOn)[i];
              && c.listing == subs[i]
              && (WaitsAt(subs, i, from, giveUpOn) ||
                  RightVerdict(c, from.escrow[from.addressOf(subs[i].submitter)], from.download(i, RootOf(subs[i])), giveUpOn))
    {
      CheckIsRight(subs[i], from.escrow[from.addressOf(subs[i].submitter)], from.download(i, RootOf(subs[i])), giveUpOn);
    }
  }

  /** One submission checked, and its root if it could not be downloaded and is not given up on. */
  method VerifyOne(s: Listing, committed: Evidence, blob: Option<Blob>, giveUpOn: set<string>) returns (c: Checked, failed: seq<string>)
    ensures c == CheckOne(s, committed, blob, giveUpOn)
    ensures failed == if Waits(s, committed, blob, giveUpOn) then [LowerCase(RootOf(s))] else []
  {
    var early := BeforeDownload(s, committed);
    if early.Some? {
      return early.value, [];
    }
    if blob.Some? {
      return AfterDownload(s, blob.value), [];
    }
    if LowerCase(RootOf(s)) in giveUpOn {
      return Checked(s, Some(StorageUnreadable), None), [];
    }
    return Checked(s, None, None), [LowerCase(RootOf(s))];
  }

  /**
   verifyOpenResults: every submission checked, and the roots that could not be downloaded and are not
   given up on. When there are none, every verdict is the right one.
   */
  method VerifyOpenResults(subs: seq<Listing>, from: Source, giveUpOn: set<string>)
    returns (out: seq<Checked>, failedRoots: seq<string>)
    requires AreCommitted(subs, from)
    ensures out == CheckedAll(subs, from, giveUpOn) && failedRoots == FailedRoots(subs, from, giveUpOn)
    ensures failedRoots == [] ==> forall i :: 0 <= i < |subs| ==>
              out[i].listing == subs[i] &&
              RightVerdict(out[i], from.escrow[from.addressOf(subs[i].submitter)], from.download(i, RootOf(subs[i])), giveUpOn)
    ensures failedRoots == [] <==> forall i :: 0 <= i < |subs| ==> !WaitsAt(subs, i, from, giveUpOn)
    ensures forall root :: root in failedRoots ==> root !in giveUpOn && root in StoredRoots(from.escrow)
  {
    out, failedRoots := [], [];
    for i := 0 to |subs|
      invariant out == CheckedAll(subs[..i], from, giveUpOn) && failedRoots == FailedRoots(subs[..i], from, giveUpOn)
    {
      assert subs[..i + 1][..i] == subs[..i];
      var s := subs[i];
      var c, failed := VerifyOne(s, from.escrow[from.addressOf(s.submitter)], from.download(i, RootOf(s)), giveUpOn);
      out, failedRoots := out + [c], failedRoots + failed;
    }
    assert subs[..|subs|] == subs;
    FailedAreWaitedFor(subs, from, giveUpOn);
    ChecksAreRight(subs, from, giveUpOn);
  }

  // ---- What the judge can read ----------------------------------------------------------------

  predicate Blank(s: string) { forall i :: 0 <= i < |s| ==> JsonScanner.IsTrimmed(s[i]) }

  function TextOf(c: Checked): string {
    match c.listing.result
    case None => ""
    case Some(r) =>
      if c.stored.Some? && !Blank(c.stored.value) then c.stored.value
      else if r.data.output.Some? then r.data.output.value
      else r.data.json
  }

  predicate Readable(c: Checked) { c.why.None? && !Blank(TextOf(c)) }

  datatype Excluded = Excluded(submitter: string, why: Why)

  function Label(i: nat): string { ['S'] + Decimal.Digits(i + 1) }

  function Shown(text: string): string {
    if |text| > OUTPUT_CHARS then text[..OUTPUT_CHARS] + "\n[…the rest of this submission is not shown]" else text
  }

  /** The judge reads a text as it is, up to 6000 characters; of a longer one it reads these and that there is more. */
  lemma ShownIsTheBeginning(text: string)
    ensures |text| <= 6000 ==> Shown(text) == text
    ensures |text| > 6000 ==> |Shown(text)| > 6000 && Shown(text)[..6000] == text[..6000] && Shown(text)[6000..] == "\n[…the rest of this submission is not shown]"
  {
  }

  lemma SameAfterFirst(c: char, a: string, b: string)
    requires [c] + a == [c] + b
    ensures a == b
  {
    assert a == ([c] + a)[1..] == ([c] + b)[1..] == b;
  }

  lemma LabelsDiffer(i: nat, j: nat)
    requires Label(i) == Label(j)
    ensures i == j
  {
    SameAfterFirst('S', Decimal.Digits(i + 1), Decimal.Digits(j + 1));
    Decimal.DigitsDiffer(i + 1, j + 1);
  }

  /** `c` stands for the checked submission `from`. */
  ghost predicate StandsFor(c: Candidate, from: Checked) {
    Readable(from) && c.submitter == LowerCase(from.listing.submitter) && c.text == Shown(TextOf(from))
  }

  /** Indices into a list, in increasing order. */
  ghost predicate Picks(ps: seq<nat>, n: nat) {
    && (forall k :: 0 <= k < |ps| ==> ps[k] < n)
    && (forall j, k :: 0 <= j < k < |ps| ==> ps[j] < ps[k])
  }

  function PassingOf(cs: seq<Checked>, ps: seq<nat>, passes: string -> bool): (r: seq<nat>)
    requires forall k :: 0 <= k < |ps| ==> ps[k] < |cs|
  {
    if ps == [] then []
    else PassingOf(cs, ps[..|ps| - 1], passes) + (if passes(TextOf(cs[ps[|ps| - 1]])) then [ps[|ps| - 1]] else [])
  }

  /** Exactly those that pass. */
  lemma {:induction false} PassingPass(cs: seq<Checked>, ps: seq<nat>, passes: string -> bool)
    requires forall k :: 0 <= k < |ps| ==> ps[k] < |cs|
    ensures forall p :: p in PassingOf(cs, ps, passes) <==> p in ps && passes(TextOf(cs[p]))
  {
    if ps == [] {
    } else {
      var last := |ps| - 1;
      PassingPass(cs, ps[..last], passes);
      assert forall p :: p in ps <==> p in ps[..last] || p == ps[last];
    }
  }

  lemma PicksOneMore(front: seq<nat>, p: nat, n: nat)
    requires Picks(front, n) && p < n && forall k :: 0 <= k < |front| ==> front[k] < p
    ensures Picks(front + [p], n) && Picks(front + [], n)
  {
    assert front + [] == front;
  }

  lemma {:induction false} PassingKeepsOrder(cs: seq<Checked>, ps: seq<nat>, passes: string -> bool)
    requires Picks(ps, |cs|)
    ensures Picks(PassingOf(cs, ps, passes), |cs|)
  {
    if ps == [] {
    } else {
      var last := |ps| - 1;
      PassingKeepsOrder(cs, ps[..last], passes);
      PassingPass(cs, ps[..last], passes);
      var front := PassingOf(cs, ps[..last], passes);
      forall k | 0 <= k < |front|
        ensures front[k] < ps[last]
      {
        assert front[k] in front;
        assert front[k] in ps[..last];
      }
      PicksOneMore(front, ps[last], |cs|);
    }
  }

  /** The rows of those that cannot be read, with why. */
  function UnreadableRows(cs: seq<Checked>): (r: seq<Excluded>) {
    if cs == [] then []
    else
      var c := cs[|cs| - 1];
      UnreadableRows(cs[..|cs| - 1]) +
      (if Readable(c) then [] else [Excluded(c.listing.submitter, if c.why.Some? then c.why.value else Unreadable)])
  }

  /** The rows of those that fail the task's checks. */
  function FailingRows(cs: seq<Checked>, ps: seq<nat>, passes: string -> bool): (r: seq<Excluded>)
    requires forall k :: 0 <= k < |ps| ==> ps[k] < |cs|
    ensures |r| + |PassingOf(cs, ps, passes)| == |ps|
  {
    if ps == [] then []
    else
      var c := cs[ps[|ps| - 1]];
      FailingRows(cs, ps[..|ps| - 1], passes) +
      (if passes(TextOf(c)) then [] else [Excluded(LowerCase(c.listing.submitter), FailedChecks)])
  }

  /** The first `n` submissions' indices that can be read. */
  function ReadableOf(cs: seq<Checked>, n: nat): (r: seq<nat>)
    requires n <= |cs|
    ensures forall k :: 0 <= k < |r| ==> r[k] < n
  {
    if n == 0 then [] else ReadableOf(cs, n - 1) + (if Readable(cs[n - 1]) then [n - 1] else [])
  }

  lemma {:induction false} ReadableAndNot(cs: seq<Checked>, n: nat)
    requires n <= |cs|
    ensures |ReadableOf(cs, n)| + |UnreadableRows(cs[..n])| == n
  {
    if n == 0 {
    } else {
      ReadableAndNot(cs, n - 1);
      assert cs[..n][..n - 1] == cs[..n - 1];
    }
  }

  lemma {:induction false} ReadableArePicks(cs: seq<Checked>, n: nat)
    requires n <= |cs|
    ensures Picks(ReadableOf(cs, n), n)
  {
    if n == 0 {
    } else {
      ReadableArePicks(cs, n - 1);
      PicksOneMore(ReadableOf(cs, n - 1), n - 1, n);
    }
  }

  lemma {:induction false} ReadableAreRead(cs: seq<Checked>, n: nat, i: nat)
    requires i < n <= |cs|
    ensures i in ReadableOf(cs, n) <==> Readable(cs[i])
  {
    if i < n - 1 {
      ReadableAreRead(cs, n - 1, i);
    } else {
      ReadableArePicks(cs, n - 1);
      assert i !in ReadableOf(cs, n - 1);
    }
  }

  /** The readable submissions, by index, and the others with why they are not. */
  method SplitReadable(cs: seq<Checked>) returns (readable: seq<nat>, excluded: seq<Excluded>)
    ensures Picks(readable, |cs|) && |readable| + |excluded| == |cs|
    ensures readable == ReadableOf(cs, |cs|) && excluded == UnreadableRows(cs)
    ensures forall i :: 0 <= i < |cs| ==> (i in readable <==> Readable(cs[i]))
  {
    readable, excluded := [], [];
    for i := 0 to |cs|
      invariant readable == ReadableOf(cs, i) && excluded == UnreadableRows(cs[..i])
    {
      assert cs[..i + 1][..i] == cs[..i];
      if Readable(cs[i]) {
        readable := readable + [i];
      } else {
        excluded := excluded + [Excluded(cs[i].listing.submitter, if cs[i].why.Some? then cs[i].why.value else Unreadable)];
      }
    }
    assert cs[..|cs|] == cs;
    ReadableAndNot(cs, |cs|);
    ReadableArePicks(cs, |cs|);
    forall i | 0 <= i < |cs|
      ensures i in readable <==> Readable(cs[i])
    {
      ReadableAreRead(cs, |cs|, i);
    }
  }

  lemma OneMoreSplit(cs: seq<Checked>, ps: seq<nat>, k: nat, passes: string -> bool)
    requires Picks(ps, |cs|) && k < |ps|
    ensures var c := cs[ps[k]];
            && PassingOf(cs, ps[..k + 1], passes) == PassingOf(cs, ps[..k], passes) + (if passes(TextOf(c)) then [ps[k]] else [])
            && FailingRows(cs, ps[..k + 1], passes) ==
               FailingRows(cs, ps[..k], passes) + (if passes(TextOf(c)) then [] else [Excluded(LowerCase(c.listing.submitter), FailedChecks)])
  {
    assert ps[..k + 1][..k] == ps[..k];
  }

  /** Those of the readable that pass, or all of them when none does; the failing ones are listed. */
  method SplitPassing(cs: seq<Checked>, readable: seq<nat>, passes: string -> bool)
    returns (pool: seq<nat>, failing: seq<Excluded>)
    requires Picks(readable, |cs|)
    ensures |pool| + |failing| == |readable|
    ensures failing == if PassingOf(cs, readable, passes) == [] then [] else FailingRows(cs, readable, passes)
    ensures pool == var passing := PassingOf(cs, readable, passes); if passing == [] then readable else passing
  {
    var passing: seq<nat> := [];
    failing := [];
    for k := 0 to |readable|
      invariant passing == PassingOf(cs, readable[..k], passes)
      invariant failing == FailingRows(cs, readable[..k], passes)
    {
      OneMoreSplit(cs, readable, k, passes);
      var c := cs[readable[k]];
      if passes(TextOf(c)) {
        passing := passing + [readable[k]];
      } else {
        failing := failing + [Excluded(LowerCase(c.listing.submitter), FailedChecks)];
      }
    }
    assert readable[..|readable|] == readable;
    if passing == [] {
      pool, failing := readable, [];
    } else {
      pool := passing;
    }
  }

  /** Who is judged, by index: the readable that pass, or all of them when none does. */
  function PoolOf(cs: seq<Checked>, passes: string -> bool): (r: seq<nat>)
    ensures forall k :: 0 <= k < |r| ==> r[k] < |cs|
  {
    var readable := ReadableOf(cs, |cs|);
    var passing := PassingOf(cs, readable, passes);
    PassingPass(cs, readable, passes);
    assert forall k :: 0 <= k < |passing| ==> passing[k] in passing;
    if passing == [] then readable else passing
  }

  function CandidateFor(k: nat, c: Checked): Candidate {
    Candidate(Label(k), LowerCase(c.listing.submitter), Shown(TextOf(c)))
  }

  function CandidatesOf(cs: seq<Checked>, passes: string -> bool): seq<Candidate> {
    var pool := PoolOf(cs, passes);
    seq(|pool|, k requires 0 <= k < |pool| => CandidateFor(k, cs[pool[k]]))
  }

  /** Everyone else, with why. */
  function ExcludedOf(cs: seq<Checked>, passes: string -> bool): seq<Excluded> {
    var readable := ReadableOf(cs, |cs|);
    UnreadableRows(cs) + (if PassingOf(cs, readable, passes) == [] then [] else FailingRows(cs, readable, passes))
  }

  /** A submission not judged is listed with why: as the check found it, as unreadable, or as failing the task's checks. */
  predicate IsListedAs(c: Checked, row: Excluded) {
    if c.why.Some? then row == Excluded(c.listing.submitter, c.why.value)
    else if Blank(TextOf(c)) then row == Excluded(c.listing.submitter, Unreadable)
    else row == Excluded(LowerCase(c.listing.submitter), FailedChecks)
  }

  lemma {:induction false} UnreadableAreListed(cs: seq<Checked>, row: Excluded)
    ensures row in UnreadableRows(cs) <==> exists i :: 0 <= i < |cs| && !Readable(cs[i]) && IsListedAs(cs[i], row)
  {
    if cs == [] {
    } else {
      var last := |cs| - 1;
      UnreadableAreListed(cs[..last], row);
      assert forall i :: 0 <= i < last ==> cs[..last][i] == cs[i];
    }
  }

  /** The row of a submission that fails the task's checks. */
  function FailingRow(c: Checked): Excluded { Excluded(LowerCase(c.listing.submitter), FailedChecks) }

  lemma FailingIsListed(c: Checked, row: Excluded)
    requires Readable(c)
    ensures IsListedAs(c, row) <==> row == FailingRow(c)
  {
  }

  predicate FailsAs(cs: seq<Checked>, p: nat, passes: string -> bool, row: Excluded)
    requires p < |cs|
  {
    !passes(TextOf(cs[p])) && row == FailingRow(cs[p])
  }

  ghost predicate SomeFailsAs(cs: seq<Checked>, ps: seq<nat>, passes: string -> bool, row: Excluded)
    requires forall k :: 0 <= k < |ps| ==> ps[k] < |cs|
  {
    exists k :: 0 <= k < |ps| && FailsAs(cs, ps[k], passes, row)
  }

  lemma OneMoreFails(cs: seq<Checked>, ps: seq<nat>, passes: string -> bool, row: Excluded)
    requires ps != [] && forall k :: 0 <= k < |ps| ==> ps[k] < |cs|
    ensures SomeFailsAs(cs, ps, passes, row) <==>
              SomeFailsAs(cs, ps[..|ps| - 1], passes, row) || FailsAs(cs, ps[|ps| - 1], passes, row)
  {
    var last := |ps| - 1;
    var front := ps[..last];
    if k :| 0 <= k < last && FailsAs(cs, ps[k], passes, row) {
      assert FailsAs(cs, front[k], passes, row);
    }
    if k :| 0 <= k < last && FailsAs(cs, front[k], passes, row) {
      assert FailsAs(cs, ps[k], passes, row);
    }
  }

  lemma {:induction false} FailingAreListed(cs: seq<Checked>, ps: seq<nat>, passes: string -> bool, row: Excluded)
    requires forall k :: 0 <= k < |ps| ==> ps[k] < |cs|
    ensures row in FailingRows(cs, ps, passes) <==> SomeFailsAs(cs, ps, passes, row)
  {
    if ps == [] {
    } else {
      FailingAreListed(cs, ps[..|ps| - 1], passes, row);
      OneMoreFails(cs, ps, passes, row);
    }
  }

  /** Everyone not judged is listed, with why, and nobody judged is. */
  lemma OthersAreListedWithWhy(cs: seq<Checked>, passes: string -> bool, row: Excluded)
    ensures row in ExcludedOf(cs, passes) <==> exists i :: 0 <= i < |cs| && i !in PoolOf(cs, passes) && IsListedAs(cs[i], row)
  {
    var readable := ReadableOf(cs, |cs|);
    JudgeableAre(cs, passes);
    forall i | 0 <= i < |cs|
      ensures i in readable <==> Readable(cs[i])
    {
      ReadableAreRead(cs, |cs|, i);
    }
    ReadableArePicks(cs, |cs|);
    assert forall k :: 0 <= k < |readable| ==> readable[k] in readable;
    UnreadableAreListed(cs, row);
    FailingAreListed(cs, readable, passes, row);
    ListedAre(cs, readable, passes, row);
  }

  lemma ListedAre(cs: seq<Checked>, readable: seq<nat>, passes: string -> bool, row: Excluded)
    requires readable == ReadableOf(cs, |cs|) && IsPool(cs, passes, PoolOf(cs, passes))
    requires forall i :: 0 <= i < |cs| ==> (i in readable <==> Readable(cs[i]))
    requires forall k :: 0 <= k < |readable| ==> readable[k] < |cs| && Readable(cs[readable[k]])
    requires row in UnreadableRows(cs) <==> exists i :: 0 <= i < |cs| && !Readable(cs[i]) && IsListedAs(cs[i], row)
    requires row in FailingRows(cs, readable, passes) <==> SomeFailsAs(cs, readable, passes, row)
    ensures row in ExcludedOf(cs, passes) <==> exists i :: 0 <= i < |cs| && i !in PoolOf(cs, passes) && IsListedAs(cs[i], row)
  {
    var pool := PoolOf(cs, passes);
    ReadableArePicks(cs, |cs|);
    AnyPassesIff(cs, readable, passes);
    if row in ExcludedOf(cs, passes) {
      if row in UnreadableRows(cs) {
        var i :| 0 <= i < |cs| && !Readable(cs[i]) && IsListedAs(cs[i], row);
        assert i !in pool;
      } else {
        var k :| 0 <= k < |readable| && FailsAs(cs, readable[k], passes, row);
        FailingIsListed(cs[readable[k]], row);
        assert readable[k] !in pool;
      }
    }
    if i :| 0 <= i < |cs| && i !in pool && IsListedAs(cs[i], row) {
      if Readable(cs[i]) {
        var k :| 0 <= k < |readable| && readable[k] == i;
        FailingIsListed(cs[i], row);
        assert FailsAs(cs, readable[k], passes, row);
      }
    }
  }

  /** Exactly the readable that pass, or all the readable when none does, in order. */
  ghost predicate IsPool(cs: seq<Checked>, passes: string -> bool, pool: seq<nat>) {
    && Picks(pool, |cs|)
    && forall i :: 0 <= i < |cs| ==> (i in pool <==> Readable(cs[i]) && (passes(TextOf(cs[i])) || !AnyPasses(cs, passes)))
  }

  /** The candidates stand for these submissions, under different labels and in order. */
  ghost predicate AllStand(cs: seq<Checked>, pool: seq<nat>, candidates: seq<Candidate>) {
    && |candidates| == |pool| && DistinctIds(candidates)
    && forall k :: 0 <= k < |pool| ==> pool[k] < |cs| && candidates[k].id == Label(k) && StandsFor(candidates[k], cs[pool[k]])
  }

  lemma JudgeableAre(cs: seq<Checked>, passes: string -> bool)
    ensures IsPool(cs, passes, PoolOf(cs, passes)) && AllStand(cs, PoolOf(cs, passes), CandidatesOf(cs, passes))
    ensures |CandidatesOf(cs, passes)| + |ExcludedOf(cs, passes)| == |cs|
  {
    var readable := ReadableOf(cs, |cs|);
    ReadableArePicks(cs, |cs|);
    ReadableAreAll(cs);
    PoolIsChosen(cs, readable, PoolOf(cs, passes), passes);
    PoolStands(cs, PoolOf(cs, passes), CandidatesOf(cs, passes));
  }

  lemma ReadableAreAll(cs: seq<Checked>)
    ensures forall i :: 0 <= i < |cs| ==> (i in ReadableOf(cs, |cs|) <==> Readable(cs[i]))
    ensures |ReadableOf(cs, |cs|)| + |UnreadableRows(cs)| == |cs|
  {
    ReadableAndNot(cs, |cs|);
    assert cs[..|cs|] == cs;
    forall i | 0 <= i < |cs|
      ensures i in ReadableOf(cs, |cs|) <==> Readable(cs[i])
    {
      ReadableAreRead(cs, |cs|, i);
    }
  }

  lemma PoolStands(cs: seq<Checked>, pool: seq<nat>, candidates: seq<Candidate>)
    requires Picks(pool, |cs|) && forall p :: p in pool ==> Readable(cs[p])
    requires |candidates| == |pool| && forall k :: 0 <= k < |pool| ==> candidates[k] == CandidateFor(k, cs[pool[k]])
    ensures AllStand(cs, pool, candidates)
  {
    LabelledAreDistinct(candidates);
    assert forall k :: 0 <= k < |pool| ==> pool[k] in pool;
  }

  method LabelCandidates(cs: seq<Checked>, pool: seq<nat>) returns (candidates: seq<Candidate>)
    requires forall k :: 0 <= k < |pool| ==> pool[k] < |cs|
    ensures candidates == seq(|pool|, k requires 0 <= k < |pool| => CandidateFor(k, cs[pool[k]]))
  {
    candidates := [];
    for k := 0 to |pool|
      invariant |candidates| == k && forall j :: 0 <= j < k ==> candidates[j] == CandidateFor(j, cs[pool[j]])
    {
      var c := cs[pool[k]];
      candidates := candidates + [Candidate(Label(k), LowerCase(c.listing.submitter), Shown(TextOf(c)))];
    }
  }

  /**
   judgeableSubmissions: the readable ones that pass the task's checks, or all readable ones when
   none passes, labelled S1, S2… in order; every other one is listed with why.
   */
  method JudgeableSubmissions(cs: seq<Checked>, passes: string -> bool)
    returns (candidates: seq<Candidate>, excluded: seq<Excluded>)
    ensures candidates == CandidatesOf(cs, passes) && excluded == ExcludedOf(cs, passes)
    ensures IsPool(cs, passes, PoolOf(cs, passes)) && AllStand(cs, PoolOf(cs, passes), candidates)
    ensures |candidates| + |excluded| == |cs|
  {
    var readable, unreadable := SplitReadable(cs);
    var pool, failing := SplitPassing(cs, readable, passes);
    assert pool == PoolOf(cs, passes);
    excluded := unreadable + failing;
    candidates := LabelCandidates(cs, pool);
    JudgeableAre(cs, passes);
  }

  lemma PoolIsChosen(cs: seq<Checked>, readable: seq<nat>, pool: seq<nat>, passes: string -> bool)
    requires Picks(readable, |cs|)
    requires forall i :: 0 <= i < |cs| ==> (i in readable <==> Readable(cs[i]))
    requires pool == var passing := PassingOf(cs, readable, passes); if passing == [] then readable else passing
    ensures AnyPasses(cs, passes) <==> PassingOf(cs, readable, passes) != []
    ensures IsPool(cs, passes, pool) && forall p :: p in pool ==> Readable(cs[p])
  {
    PassingKeepsOrder(cs, readable, passes);
    PassingPass(cs, readable, passes);
    AnyPassesIff(cs, readable, passes);
    assert forall p :: p in readable ==> Readable(cs[p]);
  }

  ghost predicate AnyPasses(cs: seq<Checked>, passes: string -> bool) {
    exists i :: 0 <= i < |cs| && Readable(cs[i]) && passes(TextOf(cs[i]))
  }

  lemma AnyPassesIff(cs: seq<Checked>, readable: seq<nat>, passes: string -> bool)
    requires Picks(readable, |cs|)
    requires forall i :: 0 <= i < |cs| ==> (i in readable <==> Readable(cs[i]))
    ensures AnyPasses(cs, passes) <==> PassingOf(cs, readable, passes) != []
  {
    var passing := PassingOf(cs, readable, passes);
    PassingPass(cs, readable, passes);
    if AnyPasses(cs, passes) {
      var i :| 0 <= i < |cs| && Readable(cs[i]) && passes(TextOf(cs[i]));
      assert i in passing;
    }
    if passing != [] {
      assert passing[0] in passing;
    }
  }

  lemma LabelledAreDistinct(candidates: seq<Candidate>)
    requires forall j :: 0 <= j < |candidates| ==> candidates[j].id == Label(j)
    ensures DistinctIds(candidates)
  {
    forall i, j | 0 <= i < j < |candidates|
      ensures candidates[i].id != candidates[j].id
    {
      if Label(i) == Label(j) {
        LabelsDiffer(i, j);
      }
    }
  }
}
