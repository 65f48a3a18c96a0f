/** Reading the open board page by page, a task met twice kept once. */
module OpenBoard {
  import opened Wrappers
  import opened OpenCandidates

  /** A page: its tasks and the board's total, when it gives one. */
  datatype Page = Page(tasks: seq<Entry>, total: Option<int>)

  /** What was read, and whether it reached the board's end. */
  datatype Read = Read(entries: seq<Entry>, complete: bool)

  predicate Names(s: seq<Entry>, id: Option<string>) { exists i :: 0 <= i < |s| && s[i].taskId == id }

  /** Each task's first entry, in the order met. */
  function FirstMet(s: seq<Entry>): seq<Entry> {
    if s == [] then []
    else
      var front := FirstMet(s[..|s| - 1]);
      if Names(s[..|s| - 1], s[|s| - 1].taskId) then front else front + [s[|s| - 1]]
  }

  /** All the entries of the first `n` pages, each read at the offset of what came before. */
  function Upto(page: nat -> Option<Page>, n: nat): seq<Entry> {
    if n == 0 then []
    else
      var before := Upto(page, n - 1);
      if page(|before|).Some? then before + page(|before|).value.tasks else before
  }

  /** The n-th page is the board's end: it is empty, or reaches the total. */
  predicate IsLast(page: nat -> Option<Page>, n: nat) {
    var p := page(|Upto(page, n)|);
    && p.Some?
    && (p.value.tasks == [] || |Upto(page, n)| + |p.value.tasks| >= if p.value.total.Some? then p.value.total.value else |Upto(page, n)| + |p.value.tasks|)
  }

  predicate GoesOn(page: nat -> Option<Page>, n: nat) { page(|Upto(page, n)|).Some? && !IsLast(page, n) }

  lemma {:induction false} NamesAreKept(s: seq<Entry>, id: Option<string>)
    ensures Names(FirstMet(s), id) <==> Names(s, id)
  {
    if s == [] {
    } else {
      var last := |s| - 1;
      NamesAreKept(s[..last], id);
      var front := FirstMet(s[..last]);
      NamedByOneMore(s[..last], s[last], id);
      NamedByOneMore(front, s[last], id);
      assert s == s[..last] + [s[last]];
    }
  }

  lemma NamedByOneMore(s: seq<Entry>, e: Entry, id: Option<string>)
    ensures Names(s + [e], id) <==> Names(s, id) || e.taskId == id
  {
    assert (s + [e])[|s|] == e;
    if Names(s, id) {
      var i :| 0 <= i < |s| && s[i].taskId == id;
      assert (s + [e])[i].taskId == id;
    }
  }

  /** No task is kept twice. */
  lemma {:induction false} EachTaskIsKeptOnce(s: seq<Entry>)
    ensures forall i, j :: 0 <= i < j < |FirstMet(s)| ==> FirstMet(s)[i].taskId != FirstMet(s)[j].taskId
  {
    if s == [] {
    } else {
      EachTaskIsKeptOnce(s[..|s| - 1]);
      NamesAreKept(s[..|s| - 1], s[|s| - 1].taskId);
    }
  }

  /** What is kept of a task is its first entry. */
  lemma {:induction false} KeptIsFirst(s: seq<Entry>, e: Entry)
    requires e in FirstMet(s)
    ensures exists i :: 0 <= i < |s| && s[i] == e && !Names(s[..i], e.taskId)
  {
    var last := |s| - 1;
    if e in FirstMet(s[..last]) {
      KeptIsFirst(s[..last], e);
      var i :| 0 <= i < last && s[..last][i] == e && !Names(s[..last][..i], e.taskId);
      assert s[..last][..i] == s[..i];
    }
  }

  /** No task read is lost. */
  lemma NoTaskIsLost(s: seq<Entry>, e: Entry)
    requires e in s
    ensures Names(FirstMet(s), e.taskId)
  {
    var i :| 0 <= i < |s| && s[i] == e;
    NamesAreKept(s, e.taskId);
  }

  /** The tasks kept of more pages begin with those kept of fewer. */
  lemma {:induction false} KeptInTheOrderMet(s: seq<Entry>, n: nat)
    requires n <= |s|
    ensures FirstMet(s[..n]) <= FirstMet(s)
  {
    if n == |s| {
      assert s[..n] == s;
    } else {
      KeptInTheOrderMet(s[..|s| - 1], n);
      assert s[..|s| - 1][..n] == s[..n];
    }
  }

  /** The read ends, complete, exactly at a page that is empty, gives no total, or brings as many tasks as the total it gives. */
  lemma BoardEndsExactly(page: nat -> Option<Page>, n: nat)
    ensures IsLast(page, n) <==>
              var before := |Upto(page, n)|;
              page(before).Some? &&
              var p := page(before).value;
              p.tasks == [] || p.total.None? || before + |p.tasks| >= p.total.value
    ensures page(|Upto(page, n)|).Some? ==> Upto(page, n + 1) == Upto(page, n) + page(|Upto(page, n)|).value.tasks
  {
  }

  function Min(a: nat, b: nat): nat { if a < b then a else b }

  /** Every page is what the board, standing still, holds from its offset on, `size` tasks at most, and gives its total. */
  ghost predicate Serves(page: nat -> Option<Page>, board: seq<Entry>, size: nat) {
    forall offset: nat :: offset <= |board| ==>
      page(offset) == Some(Page(board[offset..Min(offset + size, |board|)], Some(|board|)))
  }

  /** A board that stands still is read whole, and called complete on the page that ends it and on no earlier one. */
  lemma {:induction false} StandingBoardIsReadWhole(page: nat -> Option<Page>, board: seq<Entry>, size: nat, n: nat)
    requires size > 0 && Serves(page, board, size)
    ensures Upto(page, n) == board[..Min(n * size, |board|)]
    ensures IsLast(page, n) <==> (n + 1) * size >= |board|
  {
    if n == 0 {
      assert board[..0] == [];
    } else {
      StandingBoardIsReadWhole(page, board, size, n - 1);
      assert n * size == (n - 1) * size + size;
      OnePageMore(page, board, size, n - 1, Min((n - 1) * size, |board|));
    }
    assert (n + 1) * size == n * size + size;
    EndIsThere(page, board, size, n, Min(n * size, |board|));
  }

  lemma OnePageMore(page: nat -> Option<Page>, board: seq<Entry>, size: nat, n: nat, offset: nat)
    requires Serves(page, board, size) && offset <= |board| && Upto(page, n) == board[..offset]
    ensures Upto(page, n + 1) == board[..Min(offset + size, |board|)]
  {
    assert page(offset) == Some(Page(board[offset..Min(offset + size, |board|)], Some(|board|)));
  }

  lemma EndIsThere(page: nat -> Option<Page>, board: seq<Entry>, size: nat, n: nat, offset: nat)
    requires size > 0 && Serves(page, board, size) && offset <= |board| && Upto(page, n) == board[..offset]
    ensures IsLast(page, n) <==> offset + size >= |board|
  {
    assert page(offset) == Some(Page(board[offset..Min(offset + size, |board|)], Some(|board|)));
  }

  /** One page's entries, those of tasks met before left out. */
  method KeepNew(ghost before: seq<Entry>, met: seq<Entry>, tasks: seq<Entry>) returns (entries: seq<Entry>)
    requires met == FirstMet(before)
    ensures entries == FirstMet(before + tasks)
  {
    entries := met;
    assert before + tasks[..0] == before;
    for i := 0 to |tasks|
      invariant entries == FirstMet(before + tasks[..i])
    {
      NamesAreKept(before + tasks[..i], tasks[i].taskId);
      assert (before + tasks[..i + 1])[..|before| + i] == before + tasks[..i];
      if !Names(entries, tasks[i].taskId) {
        entries := entries + [tasks[i]];
      }
    }
    assert tasks[..|tasks|] == tasks;
  }

  /**
   readOpenBoard: `page` answers for each offset, None for a failed read. `n` pages were read before
   the last: a read is called complete exactly when that one is the board's end.
   */
  method ReadOpenBoard(page: nat -> Option<Page>, maxPages: nat) returns (r: Option<Read>, ghost n: nat)
    ensures n <= maxPages && forall k: nat :: k < n ==> GoesOn(page, k)
    ensures r.None? <==> n < maxPages && page(|Upto(page, n)|).None?
    ensures r.Some? ==> (r.value.complete <==> n < maxPages && IsLast(page, n))
    ensures r.Some? ==> r.value.entries == FirstMet(Upto(page, if r.value.complete then n + 1 else maxPages))
  {
    var entries: seq<Entry>, read: nat := [], 0;
    n := 0;
    for i := 0 to maxPages
      invariant n == i && read == |Upto(page, n)| && entries == FirstMet(Upto(page, n))
      invariant forall k: nat :: k < n ==> GoesOn(page, k)
    {
      var data := page(read);
      if data.None? {
        return None, n;
      }
      assert Upto(page, n + 1) == Upto(page, n) + data.value.tasks;
      entries := KeepNew(Upto(page, n), entries, data.value.tasks);
      read := read + |data.value.tasks|;
      if data.value.tasks == [] || read >= (if data.value.total.Some? then data.value.total.value else read) {
        return Some(Read(entries, true)), n;
      }
      assert GoesOn(page, n);
      n := n + 1;
    }
    r := Some(Read(entries, false));
  }
}
