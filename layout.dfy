/** The orderings of js/script.js: the grid shows a batch newest first, the diary groups it by
    the date part of `connected_at` (`groupBlocksByDate`), lists the dates latest first and each
    date's blocks newest first. */
module Layout {
  import opened Common
  import opened Text
  import opened Sorting

  /** `block.connected_at.split('T')[0]`. */
  function DateKey(b: Block): string {
    Split(b.connectedAt, 'T')[0]
  }

  /** The key is the text of `connected_at` before its first `'T'` (all of it when it has none). */
  lemma DateKeyIsDatePart(b: Block)
    ensures DateKey(b) <= b.connectedAt && 'T' !in DateKey(b)
    ensures |DateKey(b)| == |b.connectedAt| || b.connectedAt[|DateKey(b)|] == 'T'
  {
    FirstPiece(b.connectedAt, 'T');
  }

  /** `(a, b) => new Date(b.connected_at) - new Date(a.connected_at)`: `a` may come first when it
      is at least as recent. */
  function NewestFirstBlock(a: Block, b: Block): bool {
    a.connectedTime >= b.connectedTime
  }

  lemma NewestFirstBlockIsPreorder()
    ensures TotalPreorder(NewestFirstBlock)
  {
  }

  /** `renderGridView`: the batch, newest first. */
  function GridOrder(blocks: seq<Block>): (r: seq<Block>)
    ensures multiset(r) == multiset(blocks)
    ensures forall i, j | 0 <= i < j < |r| :: r[i].connectedTime >= r[j].connectedTime
  {
    NewestFirstBlockIsPreorder();
    SortBy(blocks, NewestFirstBlock)
  }

  /** The blocks of one date, in the order of the batch. */
  function BlocksOn(blocks: seq<Block>, date: string): seq<Block> {
    if blocks == [] then []
    else (if DateKey(blocks[0]) == date then [blocks[0]] else []) + BlocksOn(blocks[1..], date)
  }

  /** The filter keeps only blocks of the batch, and only those of the date. */
  lemma {:induction false} BlocksOnDates(blocks: seq<Block>, date: string)
    ensures forall b | b in BlocksOn(blocks, date) :: b in blocks && DateKey(b) == date
    decreases |blocks|
  {
    if blocks != [] {
      BlocksOnDates(blocks[1..], date);
    }
  }

  /** The blocks of every other date. */
  function NotOn(blocks: seq<Block>, date: string): seq<Block> {
    if blocks == [] then []
    else (if DateKey(blocks[0]) != date then [blocks[0]] else []) + NotOn(blocks[1..], date)
  }

  /** The dates that occur in a batch. */
  function DatesOf(blocks: seq<Block>): set<string> {
    set b | b in blocks :: DateKey(b)
  }

  /** `groupBlocksByDate`: the `reduce` fold, block by block, pushing each onto its date's list. */
  function GroupBlocksByDate(blocks: seq<Block>): map<string, seq<Block>> {
    if blocks == [] then map[]
    else
      var groups := GroupBlocksByDate(blocks[..|blocks| - 1]);
      var b := blocks[|blocks| - 1];
      var d := DateKey(b);
      groups[d := (if d in groups then groups[d] else []) + [b]]
  }

  /** `Object.keys(groups)`: the dates in the order the fold first meets them. */
  function DateOrder(blocks: seq<Block>): seq<string> {
    if blocks == [] then []
    else
      var dates := DateOrder(blocks[..|blocks| - 1]);
      var d := DateKey(blocks[|blocks| - 1]);
      if d in dates then dates else dates + [d]
  }

  lemma {:induction false} BlocksOnAppend(s: seq<Block>, b: Block, d: string)
    ensures BlocksOn(s + [b], d) == BlocksOn(s, d) + (if DateKey(b) == d then [b] else [])
    decreases |s|
  {
    if s == [] {
      assert [] + [b] == [b];
    } else {
      var t := s + [b];
      assert t[0] == s[0] && t[1..] == s[1..] + [b];
      BlocksOnAppend(s[1..], b, d);
      assert BlocksOn(t, d) == (if DateKey(s[0]) == d then [s[0]] else []) + BlocksOn(t[1..], d);
    }
  }

  /** There is a group for exactly the dates of the batch, and each group holds exactly the
      batch's blocks of that date, in batch order. */
  lemma {:induction false} GroupIsFilter(blocks: seq<Block>)
    ensures forall d :: d in GroupBlocksByDate(blocks) <==> d in DatesOf(blocks)
    ensures forall d | d in GroupBlocksByDate(blocks) :: GroupBlocksByDate(blocks)[d] == BlocksOn(blocks, d)
    decreases |blocks|
  {
    if blocks != [] {
      var front := blocks[..|blocks| - 1];
      var b := blocks[|blocks| - 1];
      assert blocks == front + [b];
      GroupIsFilter(front);
      forall d ensures BlocksOn(blocks, d) == BlocksOn(front, d) + (if DateKey(b) == d then [b] else []) {
        BlocksOnAppend(front, b, d);
      }
      assert DatesOf(blocks) == DatesOf(front) + {DateKey(b)};
      forall d | d in DatesOf(front) && d != DateKey(b) ensures BlocksOn(front, d) != [] {
        var x :| x in front && DateKey(x) == d;
        BlocksOnHas(front, x);
      }
      forall d | d !in DatesOf(front) ensures BlocksOn(front, d) == [] {
        BlocksOnNone(front, d);
      }
    }
  }

  lemma {:induction false} BlocksOnHas(s: seq<Block>, x: Block)
    requires x in s
    ensures x in BlocksOn(s, DateKey(x))
    decreases |s|
  {
    if s[0] != x {
      BlocksOnHas(s[1..], x);
    }
  }

  lemma {:induction false} BlocksOnNone(s: seq<Block>, d: string)
    requires d !in DatesOf(s)
    ensures BlocksOn(s, d) == []
    decreases |s|
  {
    if s != [] {
      assert DatesOf(s[1..]) <= DatesOf(s);
      BlocksOnNone(s[1..], d);
    }
  }

  /** Every block of the batch lies in the group of its own date and in no other. */
  lemma EachBlockInOneGroup(blocks: seq<Block>, i: nat)
    requires i < |blocks|
    ensures DateKey(blocks[i]) in GroupBlocksByDate(blocks)
    ensures blocks[i] in GroupBlocksByDate(blocks)[DateKey(blocks[i])]
    ensures forall d | d in GroupBlocksByDate(blocks) && blocks[i] in GroupBlocksByDate(blocks)[d] :: d == DateKey(blocks[i])
  {
    GroupIsFilter(blocks);
    BlocksOnHas(blocks, blocks[i]);
    forall d | d in GroupBlocksByDate(blocks) {
      BlocksOnDates(blocks, d);
    }
  }

  /** The keys come once each, and they are the dates of the batch. */
  lemma {:induction false} DateOrderIsKeys(blocks: seq<Block>)
    ensures Distinct(DateOrder(blocks))
    ensures forall d :: d in DateOrder(blocks) <==> d in DatesOf(blocks)
    decreases |blocks|
  {
    if blocks != [] {
      var front := blocks[..|blocks| - 1];
      assert blocks == front + [blocks[|blocks| - 1]];
      DateOrderIsKeys(front);
      assert DatesOf(blocks) == DatesOf(front) + {DateKey(blocks[|blocks| - 1])};
    }
  }

  /** The date sections of the diary, in the order the dates are listed. */
  datatype DiarySection = DiarySection(date: string, blocks: seq<Block>)

  /** One section per listed date, its group sorted newest first. */
  function Sections(dates: seq<string>, groups: map<string, seq<Block>>): (r: seq<DiarySection>)
    requires forall d | d in dates :: d in groups
    ensures |r| == |dates|
    ensures forall i | 0 <= i < |r| :: r[i].date == dates[i]
    ensures forall i | 0 <= i < |r| :: multiset(r[i].blocks) == multiset(groups[dates[i]])
    ensures forall i | 0 <= i < |r| :: SortedBy(r[i].blocks, NewestFirstBlock)
  {
    NewestFirstBlockIsPreorder();
    if dates == [] then []
    else [DiarySection(dates[0], SortBy(groups[dates[0]], NewestFirstBlock))] + Sections(dates[1..], groups)
  }

  /** `Object.keys(blocksByDate).sort((a, b) => b.localeCompare(a))`. */
  function SortedDates(blocks: seq<Block>): seq<string> {
    LexDescendingIsPreorder();
    SortBy(DateOrder(blocks), LexDescending)
  }

  /** `renderDiaryView`: one section per date, latest date first. */
  function DiaryLayout(blocks: seq<Block>): seq<DiarySection> {
    GroupIsFilter(blocks);
    DateOrderIsKeys(blocks);
    LexDescendingIsPreorder();
    PermutationElems(DateOrder(blocks), SortedDates(blocks));
    Sections(SortedDates(blocks), GroupBlocksByDate(blocks))
  }

  /** The listed dates come once each and are exactly the dates of the batch. */
  lemma SortedDatesAreKeys(blocks: seq<Block>)
    ensures Distinct(SortedDates(blocks))
    ensures forall d :: d in SortedDates(blocks) <==> d in DatesOf(blocks)
  {
    DateOrderIsKeys(blocks);
    LexDescendingIsPreorder();
    PermutationElems(DateOrder(blocks), SortedDates(blocks));
    PermutationKeepsDistinct(DateOrder(blocks), SortedDates(blocks));
  }

  /** The diary lists every date of the batch once, latest first. */
  lemma DiaryDatesDescending(blocks: seq<Block>)
    ensures forall i, j | 0 <= i < j < |DiaryLayout(blocks)| ::
      LexLe(DiaryLayout(blocks)[j].date, DiaryLayout(blocks)[i].date) &&
      DiaryLayout(blocks)[i].date != DiaryLayout(blocks)[j].date
    ensures forall d :: d in DatesOf(blocks) <==>
      exists i | 0 <= i < |DiaryLayout(blocks)| :: DiaryLayout(blocks)[i].date == d
  {
    SortedDatesAreKeys(blocks);
    LexDescendingIsPreorder();
    var dates := SortedDates(blocks);
    var r := DiaryLayout(blocks);
    assert forall i | 0 <= i < |r| :: r[i].date == dates[i];
    assert forall d :: (exists i | 0 <= i < |r| :: r[i].date == d) <==> d in dates;
  }

  /** Each section holds exactly that date's blocks, newest first. */
  lemma DiarySectionsNewestFirst(blocks: seq<Block>)
    ensures forall i | 0 <= i < |DiaryLayout(blocks)| ::
      multiset(DiaryLayout(blocks)[i].blocks) == multiset(BlocksOn(blocks, DiaryLayout(blocks)[i].date))
    ensures forall i | 0 <= i < |DiaryLayout(blocks)| ::
      forall k, l | 0 <= k < l < |DiaryLayout(blocks)[i].blocks| ::
        DiaryLayout(blocks)[i].blocks[k].connectedTime >= DiaryLayout(blocks)[i].blocks[l].connectedTime
  {
    GroupIsFilter(blocks);
    SortedDatesAreKeys(blocks);
  }

  /** The concatenation of the filters for a list of dates. */
  function Gather(dates: seq<string>, blocks: seq<Block>): seq<Block> {
    if dates == [] then [] else BlocksOn(blocks, dates[0]) + Gather(dates[1..], blocks)
  }

  /** All the blocks shown by a list of sections, top to bottom. */
  function Flatten(sections: seq<DiarySection>): seq<Block> {
    if sections == [] then [] else sections[0].blocks + Flatten(sections[1..])
  }

  lemma {:induction false} SplitByDate(blocks: seq<Block>, d: string)
    ensures multiset(blocks) == multiset(BlocksOn(blocks, d)) + multiset(NotOn(blocks, d))
    decreases |blocks|
  {
    if blocks != [] {
      assert blocks == [blocks[0]] + blocks[1..];
      SplitByDate(blocks[1..], d);
    }
  }

  lemma {:induction false} BlocksOnNotOn(blocks: seq<Block>, d: string, e: string)
    requires d != e
    ensures BlocksOn(NotOn(blocks, e), d) == BlocksOn(blocks, d)
    decreases |blocks|
  {
    if blocks != [] {
      BlocksOnNotOn(blocks[1..], d, e);
      var rest := NotOn(blocks[1..], e);
      if DateKey(blocks[0]) != e {
        assert NotOn(blocks, e) == [blocks[0]] + rest;
        assert ([blocks[0]] + rest)[0] == blocks[0];
        assert ([blocks[0]] + rest)[1..] == rest;
      } else {
        assert NotOn(blocks, e) == rest;
        assert BlocksOn(blocks, d) == BlocksOn(blocks[1..], d);
      }
    }
  }

  lemma {:induction false} GatherNotOn(dates: seq<string>, blocks: seq<Block>, e: string)
    requires e !in dates
    ensures Gather(dates, NotOn(blocks, e)) == Gather(dates, blocks)
    decreases |dates|
  {
    if dates != [] {
      BlocksOnNotOn(blocks, dates[0], e);
      GatherNotOn(dates[1..], blocks, e);
    }
  }

  lemma {:induction false} NotOnDates(blocks: seq<Block>, e: string)
    ensures forall b | b in NotOn(blocks, e) :: b in blocks && DateKey(b) != e
    decreases |blocks|
  {
    if blocks != [] {
      NotOnDates(blocks[1..], e);
    }
  }

  /** Listing the blocks date by date, for dates that come once each and cover the batch, shows
      every block exactly as often as the batch holds it. */
  lemma {:induction false} GatherPermutes(dates: seq<string>, blocks: seq<Block>)
    requires Distinct(dates)
    requires forall b | b in blocks :: DateKey(b) in dates
    ensures multiset(Gather(dates, blocks)) == multiset(blocks)
    decreases |dates|
  {
    if dates == [] {
      assert forall b | b in multiset(blocks) :: b in blocks;
      assert multiset(blocks) == multiset{};
    } else {
      var e := dates[0];
      var others := NotOn(blocks, e);
      assert forall j | 0 <= j < |dates[1..]| :: dates[1..][j] == dates[j + 1] != e;
      assert e !in dates[1..];
      NotOnDates(blocks, e);
      GatherPermutes(dates[1..], others);
      GatherNotOn(dates[1..], blocks, e);
      SplitByDate(blocks, e);
    }
  }

  lemma {:induction false} SectionsGather(dates: seq<string>, blocks: seq<Block>)
    requires forall d | d in dates :: d in GroupBlocksByDate(blocks)
    requires forall d | d in GroupBlocksByDate(blocks) :: GroupBlocksByDate(blocks)[d] == BlocksOn(blocks, d)
    ensures multiset(Flatten(Sections(dates, GroupBlocksByDate(blocks)))) == multiset(Gather(dates, blocks))
    decreases |dates|
  {
    if dates != [] {
      SectionsGather(dates[1..], blocks);
      var r := Sections(dates, GroupBlocksByDate(blocks));
      assert r[1..] == Sections(dates[1..], GroupBlocksByDate(blocks));
    }
  }

  /** The diary shows every block of the batch, each exactly once. */
  lemma DiaryShowsEveryBlockOnce(blocks: seq<Block>)
    ensures multiset(Flatten(DiaryLayout(blocks))) == multiset(blocks)
  {
    GroupIsFilter(blocks);
    SortedDatesAreKeys(blocks);
    var dates := SortedDates(blocks);
    SectionsGather(dates, blocks);
    GatherPermutes(dates, blocks);
  }
}
