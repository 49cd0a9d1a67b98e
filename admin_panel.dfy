/**
 * The admin panel's comment management (AdminPanel.tsx): the parsing of the
 * bulk-comment text into lines and its three-line preview, list creation,
 * bulk and single comment addition, the lock toggle, deletion, the
 * used/available split of a list and the per-list bulk totals. Backend calls
 * are oracles: each handler returns the request it sends and takes whether
 * that request succeeds; `Date.now()` readings are inputs.
 */
module AdminPanel {
  import opened Backend
  import opened JsText
  import opened Entries

  // ---------------------------------------------------------------------------
  // Bulk-comment lines and their preview

  /** `.map((line) => line.trim())`. */
  function TrimmedLines(lines: seq<string>): (r: seq<string>)
    ensures |r| == |lines| && forall i :: 0 <= i < |r| ==> r[i] == Trim(lines[i])
  {
    seq(|lines|, i requires 0 <= i < |lines| => Trim(lines[i]))
  }

  /** `.filter((line) => line.length > 0)`. */
  function NonEmptyLines(lines: seq<string>): (r: seq<string>)
    ensures |r| <= |lines|
    ensures forall i :: 0 <= i < |r| ==> r[i] != "" && r[i] in lines
  {
    if lines == [] then [] else (if lines[0] == "" then [] else [lines[0]]) + NonEmptyLines(lines[1..])
  }

  /** `validLines`: the bulk text split at line feeds, each line trimmed, empty lines dropped. */
  function ValidLines(bulkComments: string): (lines: seq<string>)
    ensures forall i :: 0 <= i < |lines| ==> lines[i] != ""
  {
    NonEmptyLines(TrimmedLines(Split(bulkComments, '\n')))
  }

  /**
   * An independent reading of the same rule, one raw line at a time: a line
   * that is blank is skipped, any other contributes its trim.
   */
  function NonBlankTrimmed(rawLines: seq<string>): seq<string> {
    if rawLines == [] then []
    else (if IsBlank(rawLines[0]) then [] else [Trim(rawLines[0])]) + NonBlankTrimmed(rawLines[1..])
  }

  lemma {:induction false} FilterOfTrimmed(rawLines: seq<string>)
    ensures NonEmptyLines(TrimmedLines(rawLines)) == NonBlankTrimmed(rawLines)
  {
    if rawLines != [] {
      FilterOfTrimmed(rawLines[1..]);
      assert TrimmedLines(rawLines)[1..] == TrimmedLines(rawLines[1..]);
    }
  }

  /** The valid lines are the trims of the non-blank input lines, in their input order. */
  lemma ValidLinesKeepNonBlankInOrder(bulkComments: string)
    ensures ValidLines(bulkComments) == NonBlankTrimmed(Split(bulkComments, '\n'))
  {
    FilterOfTrimmed(Split(bulkComments, '\n'));
  }

  /** Every valid line is non-empty and already trimmed. */
  lemma ValidLinesAreTrimmed(bulkComments: string)
    ensures forall i :: 0 <= i < |ValidLines(bulkComments)| ==>
              ValidLines(bulkComments)[i] != "" && Trim(ValidLines(bulkComments)[i]) == ValidLines(bulkComments)[i]
  {
    var trimmed := TrimmedLines(Split(bulkComments, '\n'));
    forall i | 0 <= i < |ValidLines(bulkComments)|
      ensures Trim(ValidLines(bulkComments)[i]) == ValidLines(bulkComments)[i]
    {
      var line := ValidLines(bulkComments)[i];
      assert line in trimmed;
      var j :| 0 <= j < |trimmed| && trimmed[j] == line;
      TrimIdempotent(Split(bulkComments, '\n')[j]);
    }
  }

  lemma {:induction false} NonBlankTrimmedEmpty(rawLines: seq<string>)
    ensures NonBlankTrimmed(rawLines) == [] <==> forall i :: 0 <= i < |rawLines| ==> IsBlank(rawLines[i])
  {
    if rawLines != [] {
      NonBlankTrimmedEmpty(rawLines[1..]);
      if IsBlank(rawLines[0]) {
        forall i | 1 <= i < |rawLines|
          ensures IsBlank(rawLines[i]) <==> IsBlank(rawLines[1..][i - 1])
        {
        }
      }
    }
  }

  /** The text yields no valid line (the add button stays disabled) exactly when it is blank. */
  lemma BlankTextHasNoLines(bulkComments: string)
    ensures ValidLines(bulkComments) == [] <==> IsBlank(bulkComments)
  {
    ValidLinesKeepNonBlankInOrder(bulkComments);
    NonBlankTrimmedEmpty(Split(bulkComments, '\n'));
    if IsBlank(bulkComments) {
      BlankTextSplitsIntoBlankLines(bulkComments);
    } else {
      VisibleTextHasVisibleLine(bulkComments);
    }
  }

  lemma BlankTextSplitsIntoBlankLines(text: string)
    requires IsBlank(text)
    ensures forall i :: 0 <= i < |Split(text, '\n')| ==> IsBlank(Split(text, '\n')[i])
  {
    var parts := Split(text, '\n');
    SplitCharacters(text, '\n');
    forall i, j | 0 <= i < |parts| && 0 <= j < |parts[i]|
      ensures IsWhitespace(parts[i][j])
    {
      var c := parts[i][j];
      assert c in parts[i];
      assert c in text;
      var k :| 0 <= k < |text| && text[k] == c;
    }
  }

  lemma VisibleTextHasVisibleLine(text: string)
    requires !IsBlank(text)
    ensures exists i :: 0 <= i < |Split(text, '\n')| && !IsBlank(Split(text, '\n')[i])
  {
    var parts := Split(text, '\n');
    SplitCharacters(text, '\n');
    var k :| 0 <= k < |text| && !IsWhitespace(text[k]);
    assert text[k] != '\n';
    var i :| 0 <= i < |parts| && text[k] in parts[i];
    var j :| 0 <= j < |parts[i]| && parts[i][j] == text[k];
    assert !IsBlank(parts[i]);
  }

  /** What the bulk card shows: up to three lines, and "... and `more` more" when there are others. */
  datatype Preview = Preview(lines: seq<string>, more: Option<nat>)

  /** `previewLines = validLines.slice(0, 3)` and the `totalValidLines > 3` note. */
  function UploadPreview(validLines: seq<string>): (p: Preview)
    ensures |p.lines| == (if |validLines| < 3 then |validLines| else 3)
    ensures p.lines == validLines[..|p.lines|]
    ensures p.more.Some? <==> |validLines| > 3
    ensures p.more.Some? ==> |p.lines| + p.more.value == |validLines|
  {
    var n := |validLines|;
    Preview(validLines[..if n < 3 then n else 3], if n > 3 then Some(n - 3) else None)
  }

  /** The preview accounts for every line: the lines shown plus the lines counted as more. */
  lemma PreviewAccountsForAll(validLines: seq<string>)
    ensures var p := UploadPreview(validLines);
            |p.lines| + (if p.more.Some? then p.more.value else 0) == |validLines|
            && (p.more.None? ==> p.lines == validLines)
  {
  }

  // ---------------------------------------------------------------------------
  // Comment ids

  /**
   * The id of the `index`-th comment of a bulk add: `${Date.now()}-${index}`.
   * It splits at its only dash into two decimal numerals that read back as
   * the clock reading and the index.
   */
  function BulkCommentId(now: nat, index: nat): (id: CommentId)
    ensures var parts := Split(id, '-');
            |parts| == 2 && ParseRadix(parts[0], 10) == now && ParseRadix(parts[1], 10) == index
  {
    var a, b := NatToString(now), NatToString(index);
    NumeralHasNoDash(a);
    NumeralHasNoDash(b);
    SplitAfterPiece(a, '-', b);
    SplitWithoutSeparator(b, '-');
    ParseToStringRadix(now, 10);
    ParseToStringRadix(index, 10);
    a + "-" + b
  }

  lemma NumeralHasNoDash(digits: string)
    requires forall i :: 0 <= i < |digits| ==> IsDigit(digits[i])
    ensures '-' !in digits
  {
    assert forall i :: 0 <= i < |digits| ==> digits[i] != '-';
  }

  /** A bulk id determines both the clock reading and the index it was made from. */
  lemma BulkCommentIdInjective(now1: nat, index1: nat, now2: nat, index2: nat)
    requires BulkCommentId(now1, index1) == BulkCommentId(now2, index2)
    ensures now1 == now2 && index1 == index2
  {
  }

  /** Within one bulk add the ids are pairwise distinct, whatever the clock reads at each call. */
  lemma BulkIdsDistinct(clock: nat -> nat, i: nat, j: nat)
    requires i != j
    ensures BulkCommentId(clock(i), i) != BulkCommentId(clock(j), j)
  {
    if BulkCommentId(clock(i), i) == BulkCommentId(clock(j), j) {
      BulkCommentIdInjective(clock(i), i, clock(j), j);
    }
  }

  /** The requests of a bulk add: line `i` under id `BulkCommentId(clock(i), i)`. */
  function BulkRequests(listId: CommentListId, clock: nat -> nat, lines: seq<string>): (requests: seq<NewComment>)
    ensures |requests| == |lines|
    ensures forall i :: 0 <= i < |requests| ==> requests[i].listId == listId && requests[i].content == lines[i]
  {
    seq(|lines|, i requires 0 <= i < |lines| => NewComment(listId, BulkCommentId(clock(i), i), lines[i]))
  }

  /** The requests of one bulk add carry pairwise distinct ids. */
  lemma BulkRequestIdsDistinct(listId: CommentListId, clock: nat -> nat, lines: seq<string>)
    ensures var requests := BulkRequests(listId, clock, lines);
            forall i, j :: 0 <= i < j < |requests| ==> requests[i].id != requests[j].id
  {
    var requests := BulkRequests(listId, clock, lines);
    forall i, j | 0 <= i < j < |requests|
      ensures requests[i].id != requests[j].id
    {
      BulkIdsDistinct(clock, i, j);
    }
  }

  /** The message shown when all `n` comments of a bulk add are in. */
  function BulkAddedToast(n: nat): string {
    "Added " + NatToString(n) + " comments successfully"
  }

  // ---------------------------------------------------------------------------
  // Lock toggle, used/available split, bulk totals

  /** The two requests the lock toggle can send. */
  datatype LockRequest = Lock(listId: CommentListId) | Unlock(listId: CommentListId)

  /** `handleToggleLock(listId)`: unlock a locked list, lock any other. */
  function ToggleLockRequest(listId: CommentListId, lockedListIds: seq<CommentListId>): (request: LockRequest)
    ensures request.listId == listId
    ensures request.Unlock? <==> listId in lockedListIds
    ensures request.Lock? <==> listId !in lockedListIds
  {
    if listId in lockedListIds then Unlock(listId) else Lock(listId)
  }

  /** `comments.filter((c) => c.used)`. */
  function UsedComments(comments: seq<Comment>): (used: seq<Comment>)
    ensures forall i :: 0 <= i < |used| ==> used[i].used && used[i] in comments
  {
    if comments == [] then [] else (if comments[0].used then [comments[0]] else []) + UsedComments(comments[1..])
  }

  /** `comments.filter((c) => !c.used)`. */
  function AvailableComments(comments: seq<Comment>): (available: seq<Comment>)
    ensures forall i :: 0 <= i < |available| ==> !available[i].used && available[i] in comments
  {
    if comments == [] then [] else (if comments[0].used then [] else [comments[0]]) + AvailableComments(comments[1..])
  }

  /** The used and the available comments split the list: nothing in both, nothing lost, nothing duplicated. */
  lemma UsedAvailablePartition(comments: seq<Comment>)
    ensures multiset(UsedComments(comments)) + multiset(AvailableComments(comments)) == multiset(comments)
    ensures |UsedComments(comments)| + |AvailableComments(comments)| == |comments|
    ensures forall c :: c in UsedComments(comments) ==> c !in AvailableComments(comments)
  {
    SplitKeepsEveryComment(comments);
    assert |multiset(UsedComments(comments))| + |multiset(AvailableComments(comments))| == |multiset(comments)|;
  }

  lemma {:induction false} SplitKeepsEveryComment(comments: seq<Comment>)
    ensures multiset(UsedComments(comments)) + multiset(AvailableComments(comments)) == multiset(comments)
  {
    if comments != [] {
      var c := comments[0];
      var rest := comments[1..];
      SplitKeepsEveryComment(rest);
      assert comments == [c] + rest;
      assert multiset(comments) == multiset{c} + multiset(rest);
      if c.used {
        assert UsedComments(comments) == [c] + UsedComments(rest);
        assert AvailableComments(comments) == AvailableComments(rest);
      } else {
        assert UsedComments(comments) == UsedComments(rest);
        assert AvailableComments(comments) == [c] + AvailableComments(rest);
      }
    }
  }

  /** `bulkTotalsMap.get(listId) || 0`, the bulk total shown next to a list. */
  function DisplayedTotal(bulkTotals: seq<(CommentListId, nat)>, listId: CommentListId): (total: nat)
    ensures (forall i :: 0 <= i < |bulkTotals| ==> bulkTotals[i].0 != listId) ==> total == 0
  {
    GetOr(FromEntries(bulkTotals), listId, 0)
  }

  /** A list with totals shows the total of its last pair. */
  lemma LastTotalShown(bulkTotals: seq<(CommentListId, nat)>, i: nat)
    requires i < |bulkTotals|
    requires forall j :: i < j < |bulkTotals| ==> bulkTotals[j].0 != bulkTotals[i].0
    ensures DisplayedTotal(bulkTotals, bulkTotals[i].0) == bulkTotals[i].1
  {
    LastWins(bulkTotals, i);
  }

  // ---------------------------------------------------------------------------
  // The panel's state and its handlers

  /** True when every one of the first `n` calls succeeds. */
  predicate AllSucceed(succeeds: nat -> bool, n: nat) {
    forall i :: 0 <= i < n ==> succeeds(i)
  }

  /**
   * Whether the bulk add clears the text as the program is written: only the
   * last call's own callbacks run, with the success counter still at zero, so
   * the count reaches the number of lines only when there is a single line.
   */
  predicate LastCallbackClears(succeeds: nat -> bool, n: nat) {
    n == 1 && succeeds(0)
  }

  /** Whenever the program as written clears the text, every call succeeded. */
  lemma LastCallbackClearsOnlyOnSuccess(succeeds: nat -> bool, n: nat)
    ensures LastCallbackClears(succeeds, n) ==> n > 0 && AllSucceed(succeeds, n)
    ensures n == 1 ==> (LastCallbackClears(succeeds, n) <==> AllSucceed(succeeds, n))
  {
    if n == 1 {
      assert AllSucceed(succeeds, n) ==> succeeds(0);
    }
  }

  /** With two or more lines the program as written never clears the text, whatever the calls do. */
  lemma SeveralLinesNeverClear(succeeds: nat -> bool, n: nat)
    requires n >= 2
    ensures !LastCallbackClears(succeeds, n)
  {
  }

  /**
   * Two lines whose calls both succeed: every call succeeded, so the text
   * should be cleared with the success message, but as written it stays.
   */
  lemma TwoSucceedingLinesStay()
    ensures var succeeds := (i: nat) => true;
            AllSucceed(succeeds, 2) && !LastCallbackClears(succeeds, 2)
  {
  }

  class Panel {
    var newListId: string
    var selectedList: Option<CommentListId>
    var bulkComments: string
    var singleComment: string

    constructor ()
      ensures newListId == "" && selectedList == None && bulkComments == "" && singleComment == ""
    {
      newListId := "";
      selectedList := None;
      bulkComments := "";
      singleComment := "";
    }

    /**
     * `handleCreateList`: a blank name sends nothing; otherwise the trimmed
     * name is sent and, when creation succeeds, the input is cleared and the
     * new list selected.
     */
    method HandleCreateList(succeeds: bool) returns (sent: Option<CommentListId>)
      modifies this`newListId, this`selectedList
      ensures IsBlank(old(newListId)) ==> sent == None
      ensures !IsBlank(old(newListId)) ==> sent == Some(Trim(old(newListId))) && sent.value != ""
      ensures sent.Some? && succeeds ==> newListId == "" && selectedList == sent
      ensures !(sent.Some? && succeeds) ==> newListId == old(newListId) && selectedList == old(selectedList)
    {
      var name := Trim(newListId);
      if name == "" {
        return None;
      }
      sent := Some(name);
      if succeeds {
        newListId := "";
        selectedList := Some(name);
      }
    }

    /**
     * `handleAddBulkComments` as evidently intended, with every call's
     * callbacks run in index order (see `SendEachLineAsWritten` for what the
     * program does): the
     * `index`-th valid line is sent with id `BulkCommentId(clock(index), index)`
     * and `succeeds(index)` says whether that call succeeds. Nothing is sent
     * without a selected list; the text is cleared, and the success message
     * returned, exactly when every call succeeds.
     */
    method HandleAddBulkComments(clock: nat -> nat, succeeds: nat -> bool) returns (sent: seq<NewComment>, toast: Option<string>)
      modifies this`bulkComments
      ensures var lines := ValidLines(old(bulkComments));
              sent == if IsSelected(selectedList) then BulkRequests(selectedList.value, clock, lines) else []
      ensures sent != [] && AllSucceed(succeeds, |sent|) ==> bulkComments == "" && toast == Some(BulkAddedToast(|sent|))
      ensures !(sent != [] && AllSucceed(succeeds, |sent|)) ==> bulkComments == old(bulkComments) && toast == None
    {
      var lines := ValidLines(bulkComments);
      if !IsSelected(selectedList) || |lines| == 0 {
        return [], None;
      }
      sent, toast := SendEachLine(selectedList.value, lines, clock, succeeds);
    }

    /**
     * The `forEach` of `handleAddBulkComments` as evidently intended, every
     * call's callbacks running, with
     * its `successCount` and `hasError` bookkeeping: each success counts, and
     * the success that brings the count to the number of lines clears the
     * text unless an error came first.
     */
    method SendEachLine(listId: CommentListId, lines: seq<string>, clock: nat -> nat, succeeds: nat -> bool)
      returns (sent: seq<NewComment>, toast: Option<string>)
      modifies this`bulkComments
      ensures sent == BulkRequests(listId, clock, lines)
      ensures lines != [] && AllSucceed(succeeds, |lines|) ==> bulkComments == "" && toast == Some(BulkAddedToast(|lines|))
      ensures !(lines != [] && AllSucceed(succeeds, |lines|)) ==> bulkComments == old(bulkComments) && toast == None
    {
      sent, toast := [], None;
      var successCount := 0;
      var hasError := false;
      var index := 0;
      while index < |lines|
        invariant 0 <= successCount <= index <= |lines|
        invariant |sent| == index
        invariant forall i :: 0 <= i < index ==> sent[i] == NewComment(listId, BulkCommentId(clock(i), i), lines[i])
        invariant !hasError <==> successCount == index
        invariant !hasError <==> AllSucceed(succeeds, index)
        invariant successCount < |lines| || lines == [] ==> bulkComments == old(bulkComments) && toast == None
        invariant successCount == |lines| && lines != [] ==> bulkComments == "" && toast == Some(BulkAddedToast(|lines|))
      {
        var id := BulkCommentId(clock(index), index);
        sent := sent + [NewComment(listId, id, lines[index])];
        if succeeds(index) {
          successCount := successCount + 1;
          if successCount == |lines| && !hasError {
            bulkComments := "";
            toast := Some(BulkAddedToast(|lines|));
          }
        } else {
          hasError := true;
        }
        index := index + 1;
      }
    }

    /**
     * The same `forEach` as the program runs it. Every call is made before
     * any settles, and each `mutate` call on the one mutation replaces the
     * callbacks passed to the previous one, so only the last call's
     * `onSuccess` or `onError` runs, against a `successCount` still at 0
     * and a `hasError` still false.
     */
    method SendEachLineAsWritten(listId: CommentListId, lines: seq<string>, clock: nat -> nat, succeeds: nat -> bool)
      returns (sent: seq<NewComment>, toast: Option<string>)
      modifies this`bulkComments
      ensures sent == BulkRequests(listId, clock, lines)
      ensures LastCallbackClears(succeeds, |lines|) ==> bulkComments == "" && toast == Some(BulkAddedToast(|lines|))
      ensures !LastCallbackClears(succeeds, |lines|) ==> bulkComments == old(bulkComments) && toast == None
    {
      sent, toast := [], None;
      var successCount := 0;
      var hasError := false;
      var live := 0;  // the call whose callbacks are still registered
      var index := 0;
      while index < |lines|
        invariant 0 <= index <= |lines|
        invariant |sent| == index
        invariant forall i :: 0 <= i < index ==> sent[i] == NewComment(listId, BulkCommentId(clock(i), i), lines[i])
        invariant 0 < index ==> live == index - 1
      {
        var id := BulkCommentId(clock(index), index);
        sent := sent + [NewComment(listId, id, lines[index])];
        live := index;
        index := index + 1;
      }
      if lines != [] {
        if succeeds(live) {
          successCount := successCount + 1;
          if successCount == |lines| && !hasError {
            bulkComments := "";
            toast := Some(BulkAddedToast(|lines|));
          }
        } else {
          hasError := true;
        }
      }
    }

    /**
     * `handleAddSingleComment`: nothing is sent without a selected list or
     * with blank text; otherwise the trimmed text is sent under the id
     * `${Date.now()}` and, on success, the text is cleared.
     */
    method HandleAddSingleComment(now: nat, succeeds: bool) returns (sent: Option<NewComment>)
      modifies this`singleComment
      ensures !IsSelected(selectedList) || IsBlank(old(singleComment)) ==> sent == None
      ensures IsSelected(selectedList) && !IsBlank(old(singleComment)) ==>
                sent == Some(NewComment(selectedList.value, NatToString(now), Trim(old(singleComment))))
      ensures sent.Some? && succeeds ==> singleComment == ""
      ensures !(sent.Some? && succeeds) ==> singleComment == old(singleComment)
    {
      if !IsSelected(selectedList) || Trim(singleComment) == "" {
        return None;
      }
      sent := Some(NewComment(selectedList.value, NatToString(now), Trim(singleComment)));
      if succeeds {
        singleComment := "";
      }
    }

    /** `handleDeleteList(listId)`: a successful deletion of the selected list clears the selection. */
    method HandleDeleteList(listId: CommentListId, succeeds: bool)
      modifies this`selectedList
      ensures succeeds && old(selectedList) == Some(listId) ==> selectedList == None
      ensures !(succeeds && old(selectedList) == Some(listId)) ==> selectedList == old(selectedList)
    {
      if succeeds && selectedList == Some(listId) {
        selectedList := None;
      }
    }
  }
}
