/** The board as a prompt shows it (core/orchestration/state.py): the newest entries, within a
    number of characters. */
module Transcripts {
  import opened Common

  /** `visibleTo` is empty for an entry that everyone sees. */
  datatype Entry = Entry(agentId: string, name: string, role: string, content: string, step: nat, visibleTo: Option<set<string>>)

  predicate IsVisible(e: Entry, agent: string) {
    e.visibleTo.None? || agent in e.visibleTo.value
  }

  function VisibleBoard(board: seq<Entry>, agent: string): seq<Entry> {
    if board == [] then []
    else
      var before, last := VisibleBoard(board[..|board| - 1], agent), board[|board| - 1];
      if IsVisible(last, agent) then before + [last] else before
  }

  function LeftStripped(s: string): string {
    if s != "" && IsSpace(s[0]) then LeftStripped(s[1..]) else s
  }

  function RightStripped(s: string): (r: string)
    ensures |r| <= |s| && r == s[..|r|]
  {
    if s != "" && IsSpace(s[|s| - 1]) then RightStripped(s[..|s| - 1]) else s
  }

  function Stripped(s: string): string {
    RightStripped(LeftStripped(s))
  }

  const HEADLINE: nat := 600
  /** `_headline`. */
  function Headline(text: string): string {
    var stripped := Stripped(text);
    if |stripped| <= HEADLINE then stripped
    else
      RightStripped(stripped[..HEADLINE]) + "\n\U{2026} [" + Decimal(|stripped| - HEADLINE) + " more characters omitted]"
  }

  function Header(e: Entry): string {
    "### [" + Decimal(e.step) + "] " + e.name + " (" + e.role + ")"
  }

  /** A block of a transcript. */
  datatype Block = Verbatim(entry: Entry) | Headlined(entry: Entry) | Omitted

  function Text(b: Block): string {
    match b
    case Verbatim(e) => Header(e) + "\n" + e.content
    case Headlined(e) => Header(e) + "\n" + Headline(e.content)
    case Omitted => "### (earlier contributions omitted)"
  }

  function Size(b: Block): nat {
    |Text(b)|
  }

  /** The limits of a transcript, and how characters are counted. */
  datatype Limits = Limits(maxChars: int, keepRecent: int, size: Block -> nat)

  /** An entry that is old, or would not fit, is shortened. */
  function BlockOf(l: Limits, e: Entry, position: nat, total: nat): Block {
    if position >= l.keepRecent || total + |e.content| > l.maxChars then Headlined(e) else Verbatim(e)
  }

  /** The blocks of the first `k` entries when the others are shown already: characters are counted
      from the newest entry on, the result has the order of the board. */
  function Rendered(l: Limits, entries: seq<Entry>, k: nat, total: nat): seq<Block>
    requires k <= |entries|
  {
    if k == 0 then []
    else
      var block := BlockOf(l, entries[k - 1], |entries| - k, total);
      if total + l.size(block) > l.maxChars then [Omitted] + [block]
      else Rendered(l, entries, k - 1, total + l.size(block)) + [block]
  }

  function Joined(blocks: seq<Block>): string {
    if blocks == [] then ""
    else if |blocks| == 1 then Text(blocks[0])
    else Joined(blocks[..|blocks| - 1]) + "\n\n" + Text(blocks[|blocks| - 1])
  }

  function Reversed(s: seq<Block>): seq<Block> {
    if s == [] then [] else Reversed(s[1..]) + [s[0]]
  }

  lemma {:induction false} ReversedAppend(s: seq<Block>, x: Block)
    ensures Reversed(s + [x]) == [x] + Reversed(s)
  {
    if s == [] {
      assert [x] == s + [x];
    } else {
      ReversedAppend(s[1..], x);
      assert (s + [x])[1..] == s[1..] + [x];
    }
  }

  lemma OneMoreBlock(l: Limits, entries: seq<Entry>, k: nat, total: nat, block: Block, shown: seq<Block>)
    requires 0 < k <= |entries| && block == BlockOf(l, entries[k - 1], |entries| - k, total)
    requires total + l.size(block) <= l.maxChars
    ensures Rendered(l, entries, k, total) + shown == Rendered(l, entries, k - 1, total + l.size(block)) + ([block] + shown)
  {
    var before := Rendered(l, entries, k - 1, total + l.size(block));
    assert before + [block] + shown == before + ([block] + shown);
  }

  lemma LastBlock(l: Limits, entries: seq<Entry>, k: nat, total: nat, block: Block, shown: seq<Block>)
    requires 0 < k <= |entries| && block == BlockOf(l, entries[k - 1], |entries| - k, total)
    requires total + l.size(block) > l.maxChars
    ensures Rendered(l, entries, k, total) + shown == [Omitted] + ([block] + shown)
  {
    assert [Omitted] + [block] + shown == [Omitted] + ([block] + shown);
  }

  /** `transcript`; the empty agent stands for none. */
  method Transcript(board: seq<Entry>, agent: string, maxChars: int, keepRecent: int) returns (text: string)
    ensures agent != "" ==> forall e :: e in VisibleBoard(board, agent) <==>
                              e in board && (e.visibleTo.None? || agent in e.visibleTo.value)
    ensures var entries := if agent == "" then board else VisibleBoard(board, agent);
            text == if entries == [] then "(no prior contributions)"
                    else Joined(Rendered(Limits(maxChars, keepRecent, Size), entries, |entries|, 0))
  {
    var entries := if agent == "" then board else VisibleBoard(board, agent);
    OnlyVisible(board, agent);
    if entries == [] {
      return "(no prior contributions)";
    }
    var blocks := RenderNewestFirst(Limits(maxChars, keepRecent, Size), entries);
    return Joined(Reversed(blocks));
  }

  lemma {:induction false} OnlyVisible(board: seq<Entry>, agent: string)
    ensures forall e :: e in VisibleBoard(board, agent) <==> e in board && (e.visibleTo.None? || agent in e.visibleTo.value)
  {
    if board != [] {
      OnlyVisible(board[..|board| - 1], agent);
      assert board == board[..|board| - 1] + [board[|board| - 1]];
    }
  }

  /** What an agent sees is a part of the board, in its order: `places` says where each entry stands. */
  ghost predicate PartOf(board: seq<Entry>, agent: string, seen: seq<Entry>, places: seq<nat>) {
    && |places| == |seen|
    && (forall i :: 0 <= i < |places| ==> places[i] < |board| && board[places[i]] == seen[i])
    && (forall i, j :: 0 <= i < j < |places| ==> places[i] < places[j])
    && forall p: nat :: p < |board| && (board[p].visibleTo.None? || agent in board[p].visibleTo.value) ==> p in places
  }

  lemma {:induction false} VisibleInOrder(board: seq<Entry>, agent: string) returns (places: seq<nat>)
    ensures PartOf(board, agent, VisibleBoard(board, agent), places)
  {
    places := [];
    if board != [] {
      var n := |board| - 1;
      places := VisibleInOrder(board[..n], agent);
      assert board == board[..n] + [board[n]];
      OneMoreEntry(board[..n], agent, VisibleBoard(board[..n], agent), places, board[n]);
      if IsVisible(board[n], agent) {
        places := places + [n];
      }
    }
  }

  lemma OneMoreEntry(board: seq<Entry>, agent: string, seen: seq<Entry>, places: seq<nat>, last: Entry)
    requires PartOf(board, agent, seen, places)
    ensures if IsVisible(last, agent) then PartOf(board + [last], agent, seen + [last], places + [|board|])
            else PartOf(board + [last], agent, seen, places)
  {
    var longer := places + [|board|];
    assert longer[|places|] == |board|;
    assert forall p :: p in places ==> p in longer;
  }

  /** A transcript never says what is hidden from its agent: each of its blocks is the remark or
      shows an entry that the agent may see. */
  lemma {:induction false} NothingHiddenIsShown(l: Limits, entries: seq<Entry>, k: nat, total: nat)
    requires k <= |entries|
    ensures forall b :: b in Rendered(l, entries, k, total) ==> b == Omitted || b.entry in entries
  {
    if k > 0 {
      var block := BlockOf(l, entries[k - 1], |entries| - k, total);
      if total + l.size(block) <= l.maxChars {
        NothingHiddenIsShown(l, entries, k - 1, total + l.size(block));
      }
    }
  }

  /** A block in full ends with the whole content, after a line that says step, name and role. */
  lemma TextOfBlock(e: Entry)
    ensures |Text(Verbatim(e))| >= |e.content| && Text(Verbatim(e))[|Text(Verbatim(e))| - |e.content|..] == e.content
    ensures Text(Verbatim(e)) == "### [" + Decimal(e.step) + "] " + e.name + " (" + e.role + ")\n" + e.content
    ensures Text(Headlined(e)) == "### [" + Decimal(e.step) + "] " + e.name + " (" + e.role + ")\n" + Headline(e.content)
  {
    var head := Header(e) + "\n";
    assert Text(Verbatim(e)) == head + e.content;
    assert head == "### [" + Decimal(e.step) + "] " + e.name + " (" + e.role + ")\n";
  }

  lemma OneMoreJoined(blocks: seq<Block>, last: Block)
    ensures Joined(blocks + [last]) == if blocks == [] then Text(last) else Joined(blocks) + "\n\n" + Text(last)
  {
    assert (blocks + [last])[..|blocks|] == blocks;
  }

  /** The text is its blocks, one after the other, with a blank line between each two. */
  lemma {:induction false} JoinedApart(a: seq<Block>, b: seq<Block>)
    requires a != [] && b != []
    ensures Joined(a + b) == Joined(a) + "\n\n" + Joined(b)
  {
    var front, last := b[..|b| - 1], b[|b| - 1];
    assert b == front + [last] && a + b == (a + front) + [last];
    OneMoreJoined(a + front, last);
    OneMoreJoined(front, last);
    if front != [] {
      JoinedApart(a, front);
      Regrouped(Joined(a), "\n\n", Joined(front), "\n\n", Text(last));
    } else {
      assert a + front == a;
    }
  }

  lemma JoinedOne(b: Block)
    ensures Joined([b]) == Text(b)
  {}

  lemma Regrouped(a: string, b: string, c: string, d: string, e: string)
    ensures a + b + c + d + e == a + b + (c + d + e)
  {}

  method RenderNewestFirst(l: Limits, entries: seq<Entry>) returns (rendered: seq<Block>)
    ensures Reversed(rendered) == Rendered(l, entries, |entries|, 0)
  {
    rendered := [];
    var total, k := 0, |entries|;
    ghost var result, shown := Rendered(l, entries, |entries|, 0), [];
    while k > 0
      invariant 0 <= k <= |entries| && total >= 0 && Reversed(rendered) == shown
      invariant result == Rendered(l, entries, k, total) + shown
    {
      var block := BlockOf(l, entries[k - 1], |entries| - k, total);
      ReversedAppend(rendered, block);
      rendered := rendered + [block];
      if total + l.size(block) > l.maxChars {
        LastBlock(l, entries, k, total, block, shown);
        ReversedAppend(rendered, Omitted);
        rendered := rendered + [Omitted];
        return;
      }
      OneMoreBlock(l, entries, k, total, block, shown);
      total, shown, k := total + l.size(block), [block] + shown, k - 1;
    }
  }

  // ---- What a transcript keeps --------------------------------------------------------

  /** The index of the oldest entry shown. */
  function First(l: Limits, entries: seq<Entry>, k: nat, total: nat): (first: nat)
    requires k <= |entries|
    ensures first <= k && (k > 0 ==> first < k)
  {
    if k == 0 then 0
    else
      var more := total + l.size(BlockOf(l, entries[k - 1], |entries| - k, total));
      if more > l.maxChars then k - 1 else First(l, entries, k - 1, more)
  }

  /** The characters counted when entries `j` to `k` have been added. */
  function Count(l: Limits, entries: seq<Entry>, k: nat, total: nat, j: nat): nat
    requires j <= k <= |entries|
    decreases k
  {
    if j == k then total
    else Count(l, entries, k - 1, total + l.size(BlockOf(l, entries[k - 1], |entries| - k, total)), j)
  }

  /** The oldest entry shown goes over the limit. */
  predicate Over(l: Limits, entries: seq<Entry>, k: nat, total: nat)
    requires k <= |entries|
  {
    k > 0 && Count(l, entries, k, total, First(l, entries, k, total)) > l.maxChars
  }

  /** A transcript shows the newest entries; the remark on omitted ones stands before them exactly
      when they go over the limit, so always when an entry is left out. */
  lemma {:induction false} ShowsTheNewest(l: Limits, entries: seq<Entry>, k: nat, total: nat)
    requires k <= |entries|
    ensures var first, blocks := First(l, entries, k, total), Rendered(l, entries, k, total);
            var over := Over(l, entries, k, total);
            && |blocks| == k - first + (if over then 1 else 0)
            && (over ==> blocks[0] == Omitted)
            && (first > 0 ==> over)
  {
    if k > 0 {
      var more := total + l.size(BlockOf(l, entries[k - 1], |entries| - k, total));
      if more > l.maxChars {
        assert Count(l, entries, k, total, k - 1) == Count(l, entries, k - 1, more, k - 1);
      } else {
        ShowsTheNewest(l, entries, k - 1, more);
        assert Over(l, entries, k, total) == Over(l, entries, k - 1, more);
      }
    }
  }

  /** … none is left out in between, and they stand in the order of the board; an entry is shown in
      full exactly when it is recent enough and fits with the ones after it. */
  lemma {:induction false} ShownInOrder(l: Limits, entries: seq<Entry>, k: nat, total: nat, j: nat)
    requires k <= |entries| && First(l, entries, k, total) <= j < k
    ensures var blocks := Rendered(l, entries, k, total);
            && 0 <= j + |blocks| - k < |blocks|
            && blocks[j + |blocks| - k] ==
               if |entries| - 1 - j < l.keepRecent && Count(l, entries, k, total, j + 1) + |entries[j].content| <= l.maxChars
               then Verbatim(entries[j]) else Headlined(entries[j])
  {
    var more := total + l.size(BlockOf(l, entries[k - 1], |entries| - k, total));
    if j < k - 1 {
      ShownInOrder(l, entries, k - 1, more, j);
      var blocks, before := Rendered(l, entries, k, total), Rendered(l, entries, k - 1, more);
      assert blocks[j + |blocks| - k] == before[j + |before| - (k - 1)];
    }
  }

  /** Within the limit but for one shortened entry, however long the board is. */
  lemma {:induction false} CountIsBounded(l: Limits, entries: seq<Entry>, k: nat, total: nat)
    requires 0 < k <= |entries| && total <= l.maxChars
    requires forall e :: l.size(Verbatim(e)) <= |e.content| + l.size(Headlined(e))
    ensures var first := First(l, entries, k, total);
            Count(l, entries, k, total, first) <= l.maxChars + l.size(Headlined(entries[first]))
  {
    var block := BlockOf(l, entries[k - 1], |entries| - k, total);
    var more := total + l.size(block);
    if more > l.maxChars || k == 1 {
      assert First(l, entries, k, total) == k - 1;
      assert Count(l, entries, k, total, k - 1) == Count(l, entries, k - 1, more, k - 1);
    } else {
      CountIsBounded(l, entries, k - 1, more);
    }
  }

  function Sizes(blocks: seq<Block>, size: Block -> nat): nat {
    if blocks == [] then 0 else Sizes(blocks[..|blocks| - 1], size) + size(blocks[|blocks| - 1])
  }

  lemma SizesOfMore(before: seq<Block>, block: Block, size: Block -> nat)
    ensures Sizes(before + [block], size) == Sizes(before, size) + size(block)
  {
    assert (before + [block])[..|before|] == before;
  }

  lemma {:induction false} JoinedLength(blocks: seq<Block>)
    requires blocks != []
    ensures |Joined(blocks)| == Sizes(blocks, Size) + 2 * (|blocks| - 1)
  {
    if |blocks| > 1 {
      JoinedLength(blocks[..|blocks| - 1]);
    } else {
      assert Sizes(blocks[..0], Size) == 0;
    }
  }

  lemma {:induction false} SizesAreCounted(l: Limits, entries: seq<Entry>, k: nat, total: nat)
    requires k <= |entries|
    ensures total + Sizes(Rendered(l, entries, k, total), l.size) ==
            Count(l, entries, k, total, First(l, entries, k, total)) + if Over(l, entries, k, total) then l.size(Omitted) else 0
  {
    if k > 0 {
      var block := BlockOf(l, entries[k - 1], |entries| - k, total);
      var more := total + l.size(block);
      if more > l.maxChars {
        assert Count(l, entries, k, total, k - 1) == Count(l, entries, k - 1, more, k - 1);
        SizesOfMore([], Omitted, l.size);
        SizesOfMore([Omitted], block, l.size);
        assert [] + [Omitted] == [Omitted];
      } else {
        SizesAreCounted(l, entries, k - 1, more);
        assert Over(l, entries, k, total) == Over(l, entries, k - 1, more);
        SizesOfMore(Rendered(l, entries, k - 1, more), block, l.size);
      }
    }
  }

  lemma SizeOfVerbatim(e: Entry)
    ensures Size(Verbatim(e)) <= |e.content| + Size(Headlined(e))
  {}

  /** The length of any transcript: the limit, one entry's header and headline, the remark, and the
      blank lines in between. */
  lemma TranscriptFits(entries: seq<Entry>, maxChars: nat, keepRecent: int)
    requires entries != []
    ensures var l := Limits(maxChars, keepRecent, Size);
            var first, blocks := First(l, entries, |entries|, 0), Rendered(l, entries, |entries|, 0);
            && |Joined(blocks)| <= maxChars + Size(Headlined(entries[first])) + Size(Omitted) + 2 * (|entries| - first)
  {
    var l := Limits(maxChars, keepRecent, Size);
    var blocks := Rendered(l, entries, |entries|, 0);
    forall e
      ensures l.size(Verbatim(e)) <= |e.content| + l.size(Headlined(e))
    {
      SizeOfVerbatim(e);
    }
    CountIsBounded(l, entries, |entries|, 0);
    SizesAreCounted(l, entries, |entries|, 0);
    ShowsTheNewest(l, entries, |entries|, 0);
    JoinedLength(blocks);
  }

  /** A headline is the stripped text, or no longer than 600 characters, the number of characters
      it leaves out and 29 more. */
  lemma HeadlineIsShort(text: string)
    ensures var rest := |Stripped(text)| - HEADLINE;
            |Headline(text)| <= HEADLINE + if rest > 0 then 29 + |Decimal(rest)| else 0
  {}

  lemma {:induction false} LeftStrippedIsTheEnd(s: string)
    ensures var r := LeftStripped(s);
            |r| <= |s| && r == s[|s| - |r|..] && IsBlank(s[..|s| - |r|])
  {
    if s != "" && IsSpace(s[0]) {
      LeftStrippedIsTheEnd(s[1..]);
      var r := LeftStripped(s);
      assert s[..|s| - |r|] == [s[0]] + s[1..][..|s| - 1 - |r|];
    }
  }

  lemma {:induction false} RightStrippedIsTheBeginning(s: string)
    ensures IsBlank(s[|RightStripped(s)|..])
  {
    if s != "" && IsSpace(s[|s| - 1]) {
      RightStrippedIsTheBeginning(s[..|s| - 1]);
      var r := RightStripped(s);
      assert s[|r|..] == s[..|s| - 1][|r|..] + [s[|s| - 1]];
    }
  }

  /** A short entry loses nothing but blanks at its ends, in full or as a headline. */
  lemma ShortHeadlinesLoseNothing(text: string) returns (before: string, after: string)
    requires |Stripped(text)| <= HEADLINE
    ensures text == before + Headline(text) + after && IsBlank(before) && IsBlank(after)
  {
    var left := LeftStripped(text);
    LeftStrippedIsTheEnd(text);
    RightStrippedIsTheBeginning(left);
    before, after := text[..|text| - |left|], left[|Stripped(text)|..];
    assert left == Stripped(text) + after;
    assert text == before + left;
  }

  /** A long entry keeps its beginning: of its first 600 characters only blanks at the end are
      dropped, and the note says how many follow. */
  lemma LongHeadline(text: string) returns (kept: string)
    requires |Stripped(text)| > 600
    ensures |kept| <= 600 && kept == Stripped(text)[..|kept|] && IsBlank(Stripped(text)[|kept|..600])
    ensures Headline(text) == kept + "\n\U{2026} [" + Decimal(|Stripped(text)| - 600) + " more characters omitted]"
  {
    var stripped := Stripped(text);
    kept := RightStripped(stripped[..600]);
    RightStrippedIsTheBeginning(stripped[..600]);
    assert stripped[..600][|kept|..] == stripped[|kept|..600];
    assert stripped[..600][..|kept|] == stripped[..|kept|];
  }

  lemma {:induction false} CountIsAtLeast(l: Limits, entries: seq<Entry>, k: nat, total: nat, j: nat)
    requires j <= k <= |entries|
    ensures total <= Count(l, entries, k, total, j)
    decreases k
  {
    if j < k {
      CountIsAtLeast(l, entries, k - 1, total + l.size(BlockOf(l, entries[k - 1], |entries| - k, total)), j);
    }
  }

  lemma {:induction false} FirstIsZeroIff(l: Limits, entries: seq<Entry>, k: nat, total: nat)
    requires 0 < k <= |entries|
    ensures First(l, entries, k, total) == 0 <==> k == 1 || Count(l, entries, k, total, 1) <= l.maxChars
  {
    var more := total + l.size(BlockOf(l, entries[k - 1], |entries| - k, total));
    if k > 1 {
      assert Count(l, entries, k, total, 1) == Count(l, entries, k - 1, more, 1);
      if more > l.maxChars {
        CountIsAtLeast(l, entries, k - 1, more, 1);
      } else {
        FirstIsZeroIff(l, entries, k - 1, more);
      }
    }
  }

  /** On any board the remark stands there for nothing exactly when all entries but the oldest are
      within the limit and the oldest one goes over it: everything is shown, and still said to
      follow omitted entries. */
  lemma RemarkForNothing(l: Limits, entries: seq<Entry>)
    requires entries != []
    ensures var n, blocks := |entries|, Rendered(l, entries, |entries|, 0);
            blocks[0] == Omitted && |blocks| == n + 1 <==>
              (n == 1 || Count(l, entries, n, 0, 1) <= l.maxChars) && l.maxChars < Count(l, entries, n, 0, 0)
  {
    ShowsTheNewest(l, entries, |entries|, 0);
    FirstIsZeroIff(l, entries, |entries|, 0);
  }
}
