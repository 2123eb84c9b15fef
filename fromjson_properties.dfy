/**
 * What `SourceMap.from_json` builds: one `_index` line per `;`-separated
 * segment, one column per group in the order read, an entry at exactly the
 * listed positions, and records that carry no name.
 */
module FromJsonProperties {
  import opened Wrappers
  import opened Text
  import opened Base64Vlq
  import opened Mappings
  import opened AutoIndexing
  import opened SourceMaps

  /**
   * The records `from_json` makes: never a name, and a record without a
   * source has no source line, column or content either.
   */
  predicate Canonical(r: SourceMapping)
  {
    r.name.None? && (r.source.None? ==> r.sourceLine.None? && r.sourceColumn.None? && r.sourceContent.None?)
  }

  /** The content `sourcesContent` gives source `q`, `None` past its end. */
  function SourceContent(smap: JsonSourceMap, q: nat): Option<string>
  {
    if q < |smap.sourcesContent| then smap.sourcesContent[q] else None
  }

  /**
   * Sources that are told apart by name, with either no contents at all or
   * one content per source.
   */
  predicate Aligned(smap: JsonSourceMap)
  {
    Distinct(smap.sources) && (|smap.sourcesContent| == 0 || |smap.sourcesContent| == |smap.sources|)
  }

  /**
   * A record's source is one of `sources`, and for aligned sources its
   * content is that source's content.
   */
  predicate FromSources(smap: JsonSourceMap, r: SourceMapping)
  {
    r.source.Some? ==>
      r.source.value in smap.sources
      && (Aligned(smap) ==>
            forall q :: 0 <= q < |smap.sources| && smap.sources[q] == r.source.value ==>
              r.sourceContent == SourceContent(smap, q))
  }

  /** The invariants of the state `from_json` is building. */
  ghost predicate Built(smap: JsonSourceMap, st: ParseState)
  {
    (forall key: Position :: key in st.entries <==> 0 <= key.0 < |st.index| && key.1 in st.index[key.0])
    && (forall key: Position :: key in st.entries ==>
          st.entries[key].line == key.0 && st.entries[key].column == key.1
          && Canonical(st.entries[key]) && FromSources(smap, st.entries[key]))
  }

  /** The mapping one group gives is canonical, and its source and content come from the lists. */
  lemma GroupRecordFacts(smap: JsonSourceMap, t: Totals, gline: int, gcol: int, ref: seq<int>)
    requires GroupRecord(smap, t, gline, gcol, ref).Success?
    ensures var rec := GroupRecord(smap, t, gline, gcol, ref).value.1;
      rec.line == gline && rec.column == gcol && Canonical(rec) && FromSources(smap, rec)
    ensures |ref| < 3 <==> GroupRecord(smap, t, gline, gcol, ref).value.1.source.None?
  {
    if |ref| >= 3 {
      var p := t.spos + ref[0];
      var n, m := |smap.sources|, |smap.sourcesContent|;
      var rec := GroupRecord(smap, t, gline, gcol, ref).value.1;
      var q0 := if p >= 0 then p else n + p;
      assert 0 <= q0 < n && rec.source == Some(smap.sources[q0]);
      if Aligned(smap) {
        forall q | 0 <= q < n && smap.sources[q] == rec.source.value
          ensures rec.sourceContent == SourceContent(smap, q)
        {
          assert q == q0;
          if m == 0 {
            assert p >= 0;
          } else {
            assert m == n;
          }
        }
      }
    }
  }

  /** A group that reads successfully: its column and the mapping placed there. */
  lemma GroupFacts(smap: JsonSourceMap, group: string, t: Totals, gline: int, gcol: int)
    requires Group(smap, group, t, gline, gcol).Success?
    ensures Decode(group).Success? && Decode(group).value != []
    ensures var g := Group(smap, group, t, gline, gcol).value;
      g.1 == gcol + Decode(group).value[0]
      && g.2.line == gline && g.2.column == g.1 && Canonical(g.2) && FromSources(smap, g.2)
      && (g.2.source.None? <==> |Decode(group).value| < 4)
  {
    var values := Decode(group).value;
    GroupRecordFacts(smap, t, gline, gcol + values[0], values[1..]);
  }

  /** Recording one mapping at a position keeps the invariants. */
  lemma AddEntry(smap: JsonSourceMap, st: ParseState, t: Totals, gline: nat, col: int, rec: SourceMapping)
    requires Built(smap, st) && gline < |st.index|
    requires rec.line == gline && rec.column == col && Canonical(rec) && FromSources(smap, rec)
    ensures Built(smap, ParseState(t, st.entries[(gline, col) := rec], st.index[gline := st.index[gline] + [col]]))
  {
    var st1 := ParseState(t, st.entries[(gline, col) := rec], st.index[gline := st.index[gline] + [col]]);
    forall key: Position
      ensures key in st1.entries <==> 0 <= key.0 < |st1.index| && key.1 in st1.index[key.0]
    {
      if key.0 == gline {
        assert key.1 in st1.index[gline] <==> key.1 in st.index[gline] || key.1 == col;
      }
    }
  }

  /** Opening a new, empty `_index` line keeps the invariants. */
  lemma OpenLine(smap: JsonSourceMap, st: ParseState)
    requires Built(smap, st)
    ensures Built(smap, st.(index := st.index + [[]]))
  {
    var st0 := st.(index := st.index + [[]]);
    forall key: Position | 0 <= key.0 < |st0.index| && key.1 in st0.index[key.0]
      ensures key.0 < |st.index|
    {
    }
  }

  /** The inner loop keeps the invariants. */
  lemma {:induction false} ParseGroupsBuilt(smap: JsonSourceMap, groups: seq<string>, st: ParseState, gcol: int)
    requires |st.index| >= 1 && Built(smap, st)
    requires ParseGroups(smap, groups, st, gcol).Success?
    ensures Built(smap, ParseGroups(smap, groups, st, gcol).value)
    decreases |groups|
  {
    if groups != [] {
      var last := |st.index| - 1;
      GroupFacts(smap, groups[0], st.totals, last, gcol);
      var g := Group(smap, groups[0], st.totals, last, gcol).value;
      AddEntry(smap, st, g.0, last, g.1, g.2);
      ParseGroupsBuilt(smap, groups[1..], ParseState(g.0, st.entries[(last, g.1) := g.2], st.index[last := st.index[last] + [g.1]]), g.1);
    }
  }

  /** The column delta a group begins with (0 for a group that does not decode). */
  function ColumnDelta(group: string): int
  {
    if Decode(group).Success? && Decode(group).value != [] then Decode(group).value[0] else 0
  }

  /**
   * The columns of a line's groups: running totals of their column deltas,
   * starting from `gcol`.
   */
  function RunningColumns(groups: seq<string>, gcol: int): (cols: seq<int>)
    ensures |cols| == |groups|
    decreases |groups|
  {
    if groups == [] then []
    else
      var c := gcol + ColumnDelta(groups[0]);
      [c] + RunningColumns(groups[1..], c)
  }

  /** The `_index` line one `;`-separated segment gives: columns counted from 0 again. */
  function LineColumns(line: string): seq<int>
  {
    if line == "" then [] else RunningColumns(Split(line, ','), 0)
  }

  /** The `_index` lines of all segments. */
  function LinesColumns(lines: seq<string>): (index: seq<seq<int>>)
    ensures |index| == |lines|
  {
    if lines == [] then [] else [LineColumns(lines[0])] + LinesColumns(lines[1..])
  }

  /**
   * The inner loop leaves earlier lines alone and appends the running columns
   * of its groups to the current line; every group decodes to at least one value.
   */
  lemma {:induction false} ParseGroupsShape(smap: JsonSourceMap, groups: seq<string>, st: ParseState, gcol: int)
    requires |st.index| >= 1
    requires ParseGroups(smap, groups, st, gcol).Success?
    ensures var st' := ParseGroups(smap, groups, st, gcol).value;
      var last := |st.index| - 1;
      st'.index == st.index[last := st.index[last] + RunningColumns(groups, gcol)]
      && forall k :: 0 <= k < |groups| ==> Decode(groups[k]).Success? && Decode(groups[k]).value != []
    decreases |groups|
  {
    if groups != [] {
      var last := |st.index| - 1;
      GroupFacts(smap, groups[0], st.totals, last, gcol);
      var g := Group(smap, groups[0], st.totals, last, gcol).value;
      var st1 := ParseState(g.0, st.entries[(last, g.1) := g.2], st.index[last := st.index[last] + [g.1]]);
      ParseGroupsShape(smap, groups[1..], st1, g.1);
      var st' := ParseGroups(smap, groups, st, gcol).value;
      assert st' == ParseGroups(smap, groups[1..], st1, g.1).value;
      assert RunningColumns(groups, gcol) == [g.1] + RunningColumns(groups[1..], g.1);
      assert st1.index[last] + RunningColumns(groups[1..], g.1) == st.index[last] + RunningColumns(groups, gcol);
      assert st'.index == st1.index[last := st.index[last] + RunningColumns(groups, gcol)];
      forall k | 0 < k < |groups|
        ensures Decode(groups[k]).Success? && Decode(groups[k]).value != []
      {
        assert groups[k] == groups[1..][k - 1];
      }
     } else {
      var last := |st.index| - 1;
      assert st.index[last] + [] == st.index[last];
    }
  }

  /** The outer loop keeps the invariants. */
  lemma {:induction false} ParseLinesBuilt(smap: JsonSourceMap, lines: seq<string>, st: ParseState)
    requires Built(smap, st)
    requires ParseLines(smap, lines, st).Success?
    ensures Built(smap, ParseLines(smap, lines, st).value)
    decreases |lines|
  {
    if lines != [] {
      var st0 := st.(index := st.index + [[]]);
      OpenLine(smap, st);
      if lines[0] == "" {
        ParseLinesBuilt(smap, lines[1..], st0);
      } else {
        ParseGroupsBuilt(smap, Split(lines[0], ','), st0, 0);
        ParseLinesBuilt(smap, lines[1..], ParseGroups(smap, Split(lines[0], ','), st0, 0).value);
      }
    }
  }

  /** One turn of the outer loop appends the segment's `_index` line. */
  lemma OpenLineShape(smap: JsonSourceMap, seg: string, st: ParseState)
    requires seg == "" || ParseGroups(smap, Split(seg, ','), st.(index := st.index + [[]]), 0).Success?
    ensures var st0 := st.(index := st.index + [[]]);
      (if seg == "" then st0 else ParseGroups(smap, Split(seg, ','), st0, 0).value).index == st.index + [LineColumns(seg)]
  {
    var st0 := st.(index := st.index + [[]]);
    if seg != "" {
      ParseGroupsShape(smap, Split(seg, ','), st0, 0);
      assert st0.index[|st.index|] + RunningColumns(Split(seg, ','), 0) == LineColumns(seg);
    }
  }

  /** The outer loop appends one `_index` line per segment, as `LinesColumns` gives them. */
  lemma {:induction false} ParseLinesShape(smap: JsonSourceMap, lines: seq<string>, st: ParseState)
    requires ParseLines(smap, lines, st).Success?
    ensures ParseLines(smap, lines, st).value.index == st.index + LinesColumns(lines)
    decreases |lines|
  {
    if lines != [] {
      var st0 := st.(index := st.index + [[]]);
      var st1 := if lines[0] == "" then st0 else ParseGroups(smap, Split(lines[0], ','), st0, 0).value;
      OpenLineShape(smap, lines[0], st);
      assert ParseLines(smap, lines, st) == ParseLines(smap, lines[1..], st1);
      ParseLinesShape(smap, lines[1..], st1);
      assert st.index + [LineColumns(lines[0])] + LinesColumns(lines[1..]) == st.index + LinesColumns(lines);
    }
  }

  /** A segment gives an empty `_index` line exactly when it is empty, and otherwise one column per group. */
  lemma LineColumnsShape(line: string)
    ensures LineColumns(line) == [] <==> line == ""
    ensures line != "" ==> |LineColumns(line)| == |Split(line, ',')|
  {
  }

  /** The `l`-th `_index` line is the `l`-th segment's. */
  lemma {:induction false} LinesColumnsAt(lines: seq<string>, l: nat)
    requires l < |lines|
    ensures LinesColumns(lines)[l] == LineColumns(lines[l])
    decreases l
  {
    if l > 0 {
      LinesColumnsAt(lines[1..], l - 1);
    }
  }

  /**
   * Columns are stored in encounter order as running totals: the `k`-th is
   * the one before it (or `gcol` for the first) plus the `k`-th group's delta.
   */
  lemma {:induction false} RunningColumnsAt(groups: seq<string>, gcol: int, k: nat)
    requires k < |groups|
    ensures RunningColumns(groups, gcol)[k]
         == (if k == 0 then gcol else RunningColumns(groups, gcol)[k - 1]) + ColumnDelta(groups[k])
    decreases k
  {
    if k > 0 {
      var c := gcol + ColumnDelta(groups[0]);
      RunningColumnsAt(groups[1..], c, k - 1);
      assert groups[1..][k - 1] == groups[k];
    }
  }

  /**
   * Index/entries consistency after `from_json`: `_index` is `LinesColumns`
   * of the `;`-separated segments, so it has one line per `;` plus one, and
   * an entry recording its own position sits at exactly the listed columns.
   */
  lemma FromJsonIndexed(smap: JsonSourceMap)
    requires FromJsonSpec(smap).Success?
    ensures var m := FromJsonSpec(smap).value;
      Indexed(m)
      && m.index == LinesColumns(Split(smap.mappings, ';'))
      && |m.index| == Count(smap.mappings, ';') + 1
  {
    var lines := Split(smap.mappings, ';');
    ParseLinesBuilt(smap, lines, Start);
    ParseLinesShape(smap, lines, Start);
    SplitCount(smap.mappings, ';');
  }

  /**
   * The records `from_json` makes carry no name, a record without a source
   * carries nothing else, a source is one of `sources`, and with aligned
   * sources a record's content is its source's `sourcesContent` entry.
   */
  lemma FromJsonRecords(smap: JsonSourceMap)
    requires FromJsonSpec(smap).Success?
    ensures var m := FromJsonSpec(smap).value;
      forall key :: key in m.entries ==> Canonical(m.entries[key]) && FromSources(smap, m.entries[key])
  {
    ParseLinesBuilt(smap, Split(smap.mappings, ';'), Start);
  }

  /** Every group of a map `from_json` accepts decodes to at least one value. */
  lemma FromJsonGroupsDecode(smap: JsonSourceMap, l: nat, k: nat)
    requires FromJsonSpec(smap).Success?
    requires l < |Split(smap.mappings, ';')| && Split(smap.mappings, ';')[l] != ""
    requires k < |Split(Split(smap.mappings, ';')[l], ',')|
    ensures var group := Split(Split(smap.mappings, ';')[l], ',')[k];
      Decode(group).Success? && Decode(group).value != []
  {
    GroupsOfLine(smap, Split(smap.mappings, ';'), Start, l, k);
  }

  lemma {:induction false} GroupsOfLine(smap: JsonSourceMap, lines: seq<string>, st: ParseState, l: nat, k: nat)
    requires ParseLines(smap, lines, st).Success?
    requires l < |lines| && lines[l] != "" && k < |Split(lines[l], ',')|
    ensures Decode(Split(lines[l], ',')[k]).Success? && Decode(Split(lines[l], ',')[k]).value != []
    decreases |lines|
  {
    var st0 := st.(index := st.index + [[]]);
    var st1 := if lines[0] == "" then st0 else ParseGroups(smap, Split(lines[0], ','), st0, 0).value;
    assert ParseLines(smap, lines, st) == ParseLines(smap, lines[1..], st1);
    if l == 0 {
      ParseGroupsShape(smap, Split(lines[0], ','), st0, 0);
    } else {
      assert lines[l] == lines[1..][l - 1];
      GroupsOfLine(smap, lines[1..], st1, l - 1, k);
    }
  }
}
