/** The page list printed beside a source, such as `pp. 2-4, 9` (`compactPageRanges`). */
module PageRanges {
  import opened Decimals
  import opened Sorting

  datatype Range = Range(first: int, last: int)

  // ----- compaction -----

  /** The ranges still to come, from the open one and the pages left to read. */
  function CompactFrom(open: Range, rest: seq<int>): seq<Range>
    decreases |rest|
  {
    if rest == [] then [open]
    else if rest[0] == open.last + 1 then CompactFrom(Range(open.first, rest[0]), rest[1..])
    else [open] + CompactFrom(Range(rest[0], rest[0]), rest[1..])
  }

  function Compact(sorted: seq<int>): seq<Range> {
    if sorted == [] then [] else CompactFrom(Range(sorted[0], sorted[0]), sorted[1..])
  }

  function PrintRange(r: Range): string {
    if r.first == r.last then PrintInt(r.first) else PrintInt(r.first) + ("-" + PrintInt(r.last))
  }

  function Join(parts: seq<string>): string {
    if |parts| == 0 then ""
    else if |parts| == 1 then parts[0]
    else parts[0] + (", " + Join(parts[1..]))
  }

  function PrintEach(ranges: seq<Range>): (parts: seq<string>)
    ensures |parts| == |ranges|
  {
    seq(|ranges|, i requires 0 <= i < |ranges| => PrintRange(ranges[i]))
  }

  function Heading(pages: nat): string {
    if pages == 1 then "p. " else "pp. "
  }

  function Text(pages: seq<int>): string {
    var sorted := SortUnique(pages);
    if sorted == [] then "" else Heading(|sorted|) + Join(PrintEach(Compact(sorted)))
  }

  method CompactPageRanges(pages: seq<int>) returns (text: string)
    ensures text == Text(pages)
  {
    var sorted := SortUnique(pages);
    if |sorted| == 0 {
      return "";
    }
    var ranges: seq<string> := [];
    var start, end := sorted[0], sorted[0];
    ghost var done: seq<Range> := [];
    for i := 1 to |sorted|
      invariant Compact(sorted) == done + CompactFrom(Range(start, end), sorted[i..])
      invariant ranges == PrintEach(done)
    {
      var page := sorted[i];
      NextPage(done, Range(start, end), sorted, i);
      if page == end + 1 {
        end := page;
        continue;
      }
      ranges := ranges + [if start == end then PrintInt(start)
                          else PrintInt(start) + ("-" + PrintInt(end))];
      PrintEachSnoc(done, Range(start, end));
      done := done + [Range(start, end)];
      start := page;
      end := page;
    }
    ranges := ranges + [if start == end then PrintInt(start)
                        else PrintInt(start) + ("-" + PrintInt(end))];
    PrintEachSnoc(done, Range(start, end));
    text := Heading(|sorted|) + Join(ranges);
  }

  lemma PrintEachSnoc(ranges: seq<Range>, r: Range)
    ensures PrintEach(ranges + [r]) == PrintEach(ranges) + [PrintRange(r)]
  {
  }

  lemma NextPage(done: seq<Range>, open: Range, sorted: seq<int>, i: nat)
    requires i < |sorted|
    ensures done + CompactFrom(open, sorted[i..])
         == if sorted[i] == open.last + 1
            then done + CompactFrom(Range(open.first, sorted[i]), sorted[i + 1..])
            else (done + [open]) + CompactFrom(Range(sorted[i], sorted[i]), sorted[i + 1..])
  {
    assert sorted[i..][0] == sorted[i] && sorted[i..][1..] == sorted[i + 1..];
    assert forall more: seq<Range> :: done + ([open] + more) == (done + [open]) + more;
  }

  // ----- what the ranges denote -----

  ghost predicate InRange(r: Range, page: int) {
    r.first <= page <= r.last
  }

  ghost predicate Denotes(ranges: seq<Range>, page: int) {
    exists k :: 0 <= k < |ranges| && InRange(ranges[k], page)
  }

  /** Increasing, with at least one page missing between neighbours. */
  ghost predicate Apart(ranges: seq<Range>) {
    && (forall k :: 0 <= k < |ranges| ==> ranges[k].first <= ranges[k].last)
    && (forall j, k :: 0 <= j < k < |ranges| ==> ranges[j].last + 1 < ranges[k].first)
  }

  lemma {:induction false} CompactShape(open: Range, rest: seq<int>)
    requires Increasing(rest) && open.first <= open.last
    requires rest != [] ==> open.last < rest[0]
    ensures var ranges := CompactFrom(open, rest);
      && Apart(ranges) && ranges != [] && ranges[0].first == open.first
      && forall page :: Denotes(ranges, page) <==> InRange(open, page) || page in rest
    decreases |rest|
  {
    var ranges := CompactFrom(open, rest);
    if rest == [] {
      DenotesFirst([open]);
    } else {
      var page, more := rest[0], rest[1..];
      assert forall p :: p in rest <==> p == page || p in more;
      if page == open.last + 1 {
        CompactShape(Range(open.first, page), more);
      } else {
        CompactShape(Range(page, page), more);
        ApartFirst(open, CompactFrom(Range(page, page), more));
        DenotesFirst(ranges);
        assert ranges[1..] == CompactFrom(Range(page, page), more);
      }
    }
  }

  lemma DenotesFirst(ranges: seq<Range>)
    requires ranges != []
    ensures forall page :: Denotes(ranges, page) <==> InRange(ranges[0], page) || Denotes(ranges[1..], page)
  {
    forall page | Denotes(ranges[1..], page) ensures Denotes(ranges, page) {
      var k :| 0 <= k < |ranges[1..]| && InRange(ranges[1..][k], page);
      assert InRange(ranges[k + 1], page);
    }
    forall page | Denotes(ranges, page) && !InRange(ranges[0], page) ensures Denotes(ranges[1..], page) {
      var k :| 0 <= k < |ranges| && InRange(ranges[k], page);
      assert InRange(ranges[1..][k - 1], page);
    }
  }

  lemma ApartFirst(r: Range, ranges: seq<Range>)
    requires Apart(ranges) && r.first <= r.last
    requires ranges != [] ==> r.last + 1 < ranges[0].first
    ensures Apart([r] + ranges)
  {
    forall k | 0 <= k < |ranges| ensures r.last + 1 < ranges[k].first {
      assert ranges[0].last + 1 < ranges[k].first || k == 0;
    }
  }

  /** The printed ranges mean exactly the pages given, in order and with a gap between. */
  lemma RangesDenotePages(pages: seq<int>)
    ensures Apart(Compact(SortUnique(pages)))
    ensures forall page :: Denotes(Compact(SortUnique(pages)), page) <==> page in pages
  {
    var sorted := SortUnique(pages);
    SortUniqueSorted(pages);
    if sorted != [] {
      CompactShape(Range(sorted[0], sorted[0]), sorted[1..]);
      assert forall p :: p in sorted <==> p == sorted[0] || p in sorted[1..];
    }
  }

  lemma {:induction false} Pigeonhole(picks: seq<nat>, bound: nat)
    requires forall i :: 0 <= i < |picks| ==> picks[i] < bound
    requires forall i, j :: 0 <= i < j < |picks| ==> picks[i] != picks[j]
    ensures |picks| <= bound
    decreases bound
  {
    var first := if picks != [] then picks[0] else 0;
    if bound > 0 {
      if i :| 0 <= i < |picks| && picks[i] == bound - 1 {
        Pigeonhole(picks[..i] + picks[i + 1..], bound - 1);
      } else {
        Pigeonhole(picks, bound - 1);
      }
    }
  }

  /** No list of ranges for the same pages is shorter, overlapping or not. */
  lemma FewestRanges(pages: seq<int>, cover: seq<Range>)
    requires forall page :: Denotes(cover, page) <==> page in pages
    ensures |cover| >= |Compact(SortUnique(pages))|
  {
    RangesDenotePages(pages);
    var ranges := Compact(SortUnique(pages));
    var picks: seq<nat> := [];
    for n := 0 to |ranges|
      invariant |picks| == n
      invariant forall i :: 0 <= i < n ==> picks[i] < |cover| && InRange(cover[picks[i]], ranges[i].first)
      invariant forall i, j :: 0 <= i < j < n ==> picks[i] != picks[j]
    {
      var pick := Covering(ranges, pages, cover, n);
      forall i | 0 <= i < n ensures picks[i] != pick {
        GapBetween(ranges, pages, cover, i, n);
      }
      picks := picks + [pick];
    }
    Pigeonhole(picks, |cover|);
  }

  lemma Covering(ranges: seq<Range>, pages: seq<int>, cover: seq<Range>, k: nat) returns (pick: nat)
    requires Apart(ranges) && k < |ranges|
    requires forall page :: Denotes(ranges, page) <==> page in pages
    requires forall page :: Denotes(cover, page) <==> page in pages
    ensures pick < |cover| && InRange(cover[pick], ranges[k].first)
  {
    assert InRange(ranges[k], ranges[k].first);
    assert Denotes(cover, ranges[k].first);
    pick :| 0 <= pick < |cover| && InRange(cover[pick], ranges[k].first);
  }

  /** One range of a cover cannot reach across the page missing after range `i`. */
  lemma GapBetween(ranges: seq<Range>, pages: seq<int>, cover: seq<Range>, i: nat, k: nat)
    requires Apart(ranges) && i < k < |ranges|
    requires forall page :: Denotes(ranges, page) <==> page in pages
    requires forall page :: Denotes(cover, page) <==> page in pages
    ensures forall c :: 0 <= c < |cover| && InRange(cover[c], ranges[i].first)
              ==> !InRange(cover[c], ranges[k].first)
  {
    var missing := ranges[i].last + 1;
    assert forall m :: 0 <= m < |ranges| ==> !InRange(ranges[m], missing);
    assert !Denotes(ranges, missing) && !Denotes(cover, missing);
    forall c | 0 <= c < |cover| && InRange(cover[c], ranges[i].first)
      ensures !InRange(cover[c], ranges[k].first)
    {
      assert !InRange(cover[c], missing);
    }
  }

  // ----- reading the text back -----

  function ReadRange(s: string): (r: (Range, string))
    ensures |r.1| <= |s|
  {
    var (first, rest) := ReadInt(s);
    if rest != "" && rest[0] == '-' then
      var (last, rest') := ReadInt(rest[1..]);
      (Range(first, last), rest')
    else (Range(first, first), rest)
  }

  function ReadRanges(s: string): seq<Range>
    decreases |s|
  {
    var (range, rest) := ReadRange(s);
    if |rest| >= 2 && rest[..2] == ", " then [range] + ReadRanges(rest[2..]) else [range]
  }

  function Pages(first: int, last: int): seq<int>
    decreases last - first
  {
    if last < first then [] else Pages(first, last - 1) + [last]
  }

  function Expand(ranges: seq<Range>): seq<int> {
    if ranges == [] then [] else Pages(ranges[0].first, ranges[0].last) + Expand(ranges[1..])
  }

  /** What a reader makes of the text: the pages it lists. */
  function ReadPages(text: string): seq<int> {
    if text == "" then []
    else if |text| >= 3 && text[..3] == "p. " then Expand(ReadRanges(text[3..]))
    else if |text| >= 4 && text[..4] == "pp. " then Expand(ReadRanges(text[4..]))
    else []
  }

  lemma ReadRangePrinted(r: Range, rest: string)
    requires !StartsWithDigit(rest) && (rest != "" ==> rest[0] != '-')
    ensures ReadRange(PrintRange(r) + rest) == (r, rest)
  {
    if r.first == r.last {
      ReadIntPrinted(r.first, rest);
    } else {
      var more := "-" + (PrintInt(r.last) + rest);
      assert PrintRange(r) + rest == PrintInt(r.first) + more;
      ReadIntPrinted(r.first, more);
      assert more[1..] == PrintInt(r.last) + rest;
      ReadIntPrinted(r.last, rest);
    }
  }

  lemma {:induction false} ReadRangesPrinted(ranges: seq<Range>)
    requires ranges != []
    ensures ReadRanges(Join(PrintEach(ranges))) == ranges
    decreases |ranges|
  {
    var parts := PrintEach(ranges);
    if |ranges| == 1 {
      ReadRangePrinted(ranges[0], "");
      assert parts[0] + "" == parts[0];
      assert ranges == [ranges[0]];
    } else {
      assert parts[1..] == PrintEach(ranges[1..]);
      var rest := ", " + Join(parts[1..]);
      ReadRangePrinted(ranges[0], rest);
      assert rest[..2] == ", " && rest[2..] == Join(parts[1..]);
      ReadRangesPrinted(ranges[1..]);
      assert ranges == [ranges[0]] + ranges[1..];
    }
  }

  lemma {:induction false} ExpandCompact(open: Range, rest: seq<int>)
    requires open.first <= open.last
    ensures CompactFrom(open, rest) != []
    ensures Expand(CompactFrom(open, rest)) == Pages(open.first, open.last) + rest
    decreases |rest|
  {
    if rest == [] {
      assert Expand([open]) == Pages(open.first, open.last) + Expand([]);
    } else {
      var page, more := rest[0], rest[1..];
      assert rest == [page] + more;
      if page == open.last + 1 {
        ExpandCompact(Range(open.first, page), more);
        assert Pages(open.first, page) + more == Pages(open.first, open.last) + rest;
      } else {
        var next := Range(page, page);
        ExpandCompact(next, more);
        assert Pages(page, page) == Pages(page, page - 1) + [page] == [page];
        assert ([open] + CompactFrom(next, more))[1..] == CompactFrom(next, more);
      }
    }
  }

  /** Reading the printed text gives the pages back, each once and in order. */
  lemma ReadBack(pages: seq<int>)
    ensures ReadPages(Text(pages)) == SortUnique(pages)
  {
    var sorted := SortUnique(pages);
    if sorted != [] {
      ExpandCompact(Range(sorted[0], sorted[0]), sorted[1..]);
      ReadRangesPrinted(Compact(sorted));
      assert Pages(sorted[0], sorted[0] - 1) == [];
      AfterHeading(|sorted|, Join(PrintEach(Compact(sorted))));
    }
  }

  lemma AfterHeading(n: nat, body: string)
    ensures ReadPages(Heading(n) + body) == Expand(ReadRanges(body))
  {
    var text := Heading(n) + body;
    if n == 1 {
      assert text[..3] == "p. " && text[3..] == body;
    } else {
      assert text[..4] == "pp. " && text[4..] == body;
      assert text[..3][1] == 'p';
    }
  }
}
