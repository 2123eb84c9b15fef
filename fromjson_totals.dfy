/**
 * The running totals of `SourceMap.from_json` across the whole file: the
 * source index, source line, source column and name index are never reset,
 * not at a `;` and not at an empty segment, so each group's mapping is fixed
 * by the totals after all the groups before it in the file.
 */
module FromJsonTotals {
  import opened Wrappers
  import opened Text
  import opened Base64Vlq
  import opened Mappings
  import opened SourceMaps
  import opened FromJsonProperties

  /** The groups of one `;`-separated segment; an empty segment has none. */
  function Segments(line: string): seq<string>
  {
    if line == "" then [] else Split(line, ',')
  }

  /** Every group of the file, line after line. */
  function FileGroups(lines: seq<string>): seq<string>
  {
    if lines == [] then [] else Segments(lines[0]) + FileGroups(lines[1..])
  }

  /** The integers a group decodes to (none for a group that does not decode). */
  function GroupValues(group: string): seq<int>
  {
    if Decode(group).Success? then Decode(group).value else []
  }

  /**
   * The totals after a group with values `vals`: at least four values move
   * the three source totals, a fifth the name index.
   */
  function Advance(t: Totals, vals: seq<int>): Totals
  {
    if |vals| < 4 then t
    else Totals(t.spos + vals[1], t.sline + vals[2], t.scol + vals[3], if |vals| >= 5 then t.npos + vals[4] else t.npos)
  }

  /** The totals after the groups `gs`, starting from `t`. */
  function TotalsAfter(t: Totals, gs: seq<string>): Totals
    decreases |gs|
  {
    if gs == [] then t else TotalsAfter(Advance(t, GroupValues(gs[0])), gs[1..])
  }

  /**
   * Why one group raises, given the totals before it: it does not decode, it
   * is empty, or its moved source index is past `sourcesContent` (checked
   * first) or past `sources`.
   */
  function GroupError(smap: JsonSourceMap, group: string, t: Totals): Option<MapError>
  {
    match Decode(group)
    case Failure(_) => Some(InvalidVlq)
    case Success(vals) =>
      if vals == [] then Some(EmptyGroup)
      else if |vals| < 4 then None
      else
        var p := t.spos + vals[1];
        if |smap.sourcesContent| > p && PyIndex(smap.sourcesContent, p).None? then Some(ContentIndexOutOfRange)
        else if PyIndex(smap.sources, p).None? then Some(SourceIndexOutOfRange)
        else None
  }

  /** The error of the first group of `gs` that raises, if any. */
  function FirstError(smap: JsonSourceMap, t: Totals, gs: seq<string>): Option<MapError>
    decreases |gs|
  {
    if gs == [] then None
    else if GroupError(smap, gs[0], t).Some? then GroupError(smap, gs[0], t)
    else FirstError(smap, Advance(t, GroupValues(gs[0])), gs[1..])
  }

  /** The totals at the start of the file. */
  const Zero: Totals := Totals(0, 0, 0, 0)

  /** Whether no later column of `cols` equals the `k`-th, so that the `k`-th group's mapping is the one kept. */
  predicate LastAt(cols: seq<int>, k: nat)
    requires k < |cols|
  {
    forall j :: k < j < |cols| ==> cols[j] != cols[k]
  }

  lemma {:induction false} TotalsAfterAppend(t: Totals, a: seq<string>, b: seq<string>)
    ensures TotalsAfter(t, a + b) == TotalsAfter(TotalsAfter(t, a), b)
    decreases |a|
  {
    if a != [] {
      assert (a + b)[1..] == a[1..] + b;
      TotalsAfterAppend(Advance(t, GroupValues(a[0])), a[1..], b);
    } else {
      assert a + b == b;
    }
  }

  lemma {:induction false} FirstErrorAppend(smap: JsonSourceMap, t: Totals, a: seq<string>, b: seq<string>)
    ensures FirstError(smap, t, a + b)
         == if FirstError(smap, t, a).Some? then FirstError(smap, t, a) else FirstError(smap, TotalsAfter(t, a), b)
    decreases |a|
  {
    if a != [] {
      assert (a + b)[1..] == a[1..] + b;
      FirstErrorAppend(smap, Advance(t, GroupValues(a[0])), a[1..], b);
    } else {
      assert a + b == b;
    }
  }

  /** One group read with the totals before it: its error, or the totals after it and its mapping. */
  lemma GroupByTotals(smap: JsonSourceMap, group: string, t: Totals, gline: int, gcol: int)
    ensures Group(smap, group, t, gline, gcol).Failure? <==> GroupError(smap, group, t).Some?
    ensures Group(smap, group, t, gline, gcol).Failure? ==>
      GroupError(smap, group, t) == Some(Group(smap, group, t, gline, gcol).error)
    ensures Group(smap, group, t, gline, gcol).Success? ==>
      var g := Group(smap, group, t, gline, gcol).value;
      var vals := GroupValues(group);
      var t' := Advance(t, vals);
      g.0 == t' && g.1 == gcol + vals[0] && g.2.line == gline && g.2.column == g.1 && g.2.name.None?
      && (|vals| < 4 ==> g.2 == Unmapped(gline, g.1))
      && (|vals| >= 4 ==>
            g.2.source == PyIndex(smap.sources, t'.spos) && g.2.source.Some?
            && g.2.sourceLine == Some(t'.sline) && g.2.sourceColumn == Some(t'.scol)
            && (if |smap.sourcesContent| > t'.spos then PyIndex(smap.sourcesContent, t'.spos) == Some(g.2.sourceContent)
                else g.2.sourceContent.None?))
  {
  }

  /** The inner loop raises the first error of its groups, and otherwise ends at the totals after them. */
  lemma {:induction false} ParseGroupsTotals(smap: JsonSourceMap, gs: seq<string>, st: ParseState, gcol: int)
    requires |st.index| >= 1
    ensures ParseGroups(smap, gs, st, gcol).Failure? <==> FirstError(smap, st.totals, gs).Some?
    ensures ParseGroups(smap, gs, st, gcol).Failure? ==>
      FirstError(smap, st.totals, gs) == Some(ParseGroups(smap, gs, st, gcol).error)
    ensures ParseGroups(smap, gs, st, gcol).Success? ==>
      ParseGroups(smap, gs, st, gcol).value.totals == TotalsAfter(st.totals, gs)
    decreases |gs|
  {
    if gs != [] {
      var gline := |st.index| - 1;
      GroupByTotals(smap, gs[0], st.totals, gline, gcol);
      if Group(smap, gs[0], st.totals, gline, gcol).Success? {
        var g := Group(smap, gs[0], st.totals, gline, gcol).value;
        ParseGroupsTotals(smap, gs[1..],
          ParseState(g.0, st.entries[(gline, g.1) := g.2], st.index[gline := st.index[gline] + [g.1]]), g.1);
      }
    }
  }

  /** The outer loop likewise, over every group of its segments. */
  lemma {:induction false} ParseLinesTotals(smap: JsonSourceMap, lines: seq<string>, st: ParseState)
    ensures ParseLines(smap, lines, st).Failure? <==> FirstError(smap, st.totals, FileGroups(lines)).Some?
    ensures ParseLines(smap, lines, st).Failure? ==>
      FirstError(smap, st.totals, FileGroups(lines)) == Some(ParseLines(smap, lines, st).error)
    ensures ParseLines(smap, lines, st).Success? ==>
      ParseLines(smap, lines, st).value.totals == TotalsAfter(st.totals, FileGroups(lines))
    decreases |lines|
  {
    if lines != [] {
      var st0 := st.(index := st.index + [[]]);
      var seg := Segments(lines[0]);
      FirstErrorAppend(smap, st.totals, seg, FileGroups(lines[1..]));
      TotalsAfterAppend(st.totals, seg, FileGroups(lines[1..]));
      if lines[0] == "" {
        ParseLinesTotals(smap, lines[1..], st0);
      } else {
        ParseGroupsTotals(smap, seg, st0, 0);
        if ParseGroups(smap, seg, st0, 0).Success? {
          ParseLinesTotals(smap, lines[1..], ParseGroups(smap, seg, st0, 0).value);
        }
      }
    }
  }

  /**
   * A version 3 map is read iff no group of the file raises, and otherwise
   * `from_json` raises the error of the first group that does, with the
   * totals carried over every earlier group.
   */
  lemma FromJsonFirstError(smap: JsonSourceMap)
    requires smap.version == 3
    ensures var gs := FileGroups(Split(smap.mappings, ';'));
      (FromJsonSpec(smap).Success? <==> FirstError(smap, Zero, gs).None?)
      && (FromJsonSpec(smap).Failure? ==> FirstError(smap, Zero, gs) == Some(FromJsonSpec(smap).error))
  {
    ParseLinesTotals(smap, Split(smap.mappings, ';'), Start);
  }

  /** When no group before the `i`-th raises, the first error is the `i`-th group's, if it has one. */
  lemma {:induction false} FirstErrorAt(smap: JsonSourceMap, t: Totals, gs: seq<string>, i: nat)
    requires i < |gs|
    requires forall j :: 0 <= j < i ==> GroupError(smap, gs[j], TotalsAfter(t, gs[..j])).None?
    requires GroupError(smap, gs[i], TotalsAfter(t, gs[..i])).Some?
    ensures FirstError(smap, t, gs) == GroupError(smap, gs[i], TotalsAfter(t, gs[..i]))
    decreases i
  {
    assert gs[..0] == [];
    if i > 0 {
      var t1 := Advance(t, GroupValues(gs[0]));
      assert GroupError(smap, gs[0], TotalsAfter(t, gs[..0])).None?;
      forall j | 0 <= j < i - 1
        ensures GroupError(smap, gs[1..][j], TotalsAfter(t1, gs[1..][..j])).None?
      {
        assert gs[..j + 1][0] == gs[0] && gs[..j + 1][1..] == gs[1..][..j];
        assert gs[1..][j] == gs[j + 1];
      }
      assert gs[..i][1..] == gs[1..][..i - 1];
      FirstErrorAt(smap, t1, gs[1..], i - 1);
    }
  }

  /**
   * `sources[spos]` raises `IndexError` for the first group whose total
   * source index is past `sources`, when its content lookup has passed and no
   * earlier group raised.
   */
  lemma SourceOutOfRangeFails(smap: JsonSourceMap, i: nat)
    requires smap.version == 3
    requires i < |FileGroups(Split(smap.mappings, ';'))|
    requires var gs := FileGroups(Split(smap.mappings, ';'));
      forall j :: 0 <= j < i ==> GroupError(smap, gs[j], TotalsAfter(Zero, gs[..j])).None?
    requires var gs := FileGroups(Split(smap.mappings, ';'));
      var vals := GroupValues(gs[i]);
      Decode(gs[i]).Success? && |vals| >= 4
      && var p := TotalsAfter(Zero, gs[..i]).spos + vals[1];
      !(|smap.sourcesContent| > p && PyIndex(smap.sourcesContent, p).None?)
      && PyIndex(smap.sources, p).None?
    ensures FromJsonSpec(smap) == Failure(SourceIndexOutOfRange)
  {
    var gs := FileGroups(Split(smap.mappings, ';'));
    FirstErrorAt(smap, Zero, gs, i);
    FromJsonFirstError(smap);
  }

  /** The state `ParseGroups` leaves keeps every entry at a position none of its groups writes. */
  lemma {:induction false} ParseGroupsKeeps(smap: JsonSourceMap, gs: seq<string>, st: ParseState, gcol: int, key: Position)
    requires |st.index| >= 1 && ParseGroups(smap, gs, st, gcol).Success?
    requires forall j :: 0 <= j < |gs| ==> key != (|st.index| - 1, RunningColumns(gs, gcol)[j])
    ensures key in ParseGroups(smap, gs, st, gcol).value.entries <==> key in st.entries
    ensures key in st.entries ==> ParseGroups(smap, gs, st, gcol).value.entries[key] == st.entries[key]
    decreases |gs|
  {
    if gs != [] {
      var gline := |st.index| - 1;
      GroupFacts(smap, gs[0], st.totals, gline, gcol);
      var g := Group(smap, gs[0], st.totals, gline, gcol).value;
      var st1 := ParseState(g.0, st.entries[(gline, g.1) := g.2], st.index[gline := st.index[gline] + [g.1]]);
      assert RunningColumns(gs, gcol)[0] == g.1;
      forall j | 0 <= j < |gs| - 1 ensures key != (|st1.index| - 1, RunningColumns(gs[1..], g.1)[j]) {
        assert RunningColumns(gs[1..], g.1)[j] == RunningColumns(gs, gcol)[j + 1];
      }
      ParseGroupsKeeps(smap, gs[1..], st1, g.1, key);
    }
  }

  /** Entries of lines already read are never touched again. */
  lemma {:induction false} ParseLinesKeeps(smap: JsonSourceMap, lines: seq<string>, st: ParseState, key: Position)
    requires ParseLines(smap, lines, st).Success? && key.0 < |st.index|
    ensures key in ParseLines(smap, lines, st).value.entries <==> key in st.entries
    ensures key in st.entries ==> ParseLines(smap, lines, st).value.entries[key] == st.entries[key]
    decreases |lines|
  {
    if lines != [] {
      var st0 := st.(index := st.index + [[]]);
      if lines[0] == "" {
        ParseLinesKeeps(smap, lines[1..], st0, key);
      } else {
        ParseGroupsKeeps(smap, Split(lines[0], ','), st0, 0, key);
        ParseGroupsShape(smap, Split(lines[0], ','), st0, 0);
        ParseLinesKeeps(smap, lines[1..], ParseGroups(smap, Split(lines[0], ','), st0, 0).value, key);
      }
    }
  }

  /** The mapping a group with values `vals` puts at `(gline, gcol)` when the totals after it are `t`. */
  predicate RecordsTotals(smap: JsonSourceMap, e: SourceMapping, gline: int, gcol: int, vals: seq<int>, t: Totals)
  {
    e.line == gline && e.column == gcol && e.name.None?
    && (|vals| < 4 ==> e == Unmapped(gline, gcol))
    && (|vals| >= 4 ==>
          e.source == PyIndex(smap.sources, t.spos) && e.source.Some?
          && e.sourceLine == Some(t.sline) && e.sourceColumn == Some(t.scol)
          && (if |smap.sourcesContent| > t.spos then PyIndex(smap.sourcesContent, t.spos) == Some(e.sourceContent)
              else e.sourceContent.None?))
  }

  /** The `k`-th group of the inner loop, when no later group shares its column, leaves its mapping there. */
  lemma {:induction false} ParseGroupsRecords(smap: JsonSourceMap, gs: seq<string>, st: ParseState, gcol: int, k: nat)
    requires |st.index| >= 1 && ParseGroups(smap, gs, st, gcol).Success?
    requires k < |gs| && LastAt(RunningColumns(gs, gcol), k)
    ensures var key := (|st.index| - 1, RunningColumns(gs, gcol)[k]);
      var entries := ParseGroups(smap, gs, st, gcol).value.entries;
      key in entries
      && RecordsTotals(smap, entries[key], key.0, key.1, GroupValues(gs[k]), TotalsAfter(st.totals, gs[..k + 1]))
    decreases k
  {
    var gline := |st.index| - 1;
    GroupByTotals(smap, gs[0], st.totals, gline, gcol);
    var g := Group(smap, gs[0], st.totals, gline, gcol).value;
    var st1 := ParseState(g.0, st.entries[(gline, g.1) := g.2], st.index[gline := st.index[gline] + [g.1]]);
    var cols := RunningColumns(gs, gcol);
    assert cols == [g.1] + RunningColumns(gs[1..], g.1);
    assert gs[..k + 1][0] == gs[0] && gs[..k + 1][1..] == gs[1..][..k];
    if k == 0 {
      assert gs[1..][..0] == [];
      forall j | 0 <= j < |gs| - 1 ensures (gline, g.1) != (|st1.index| - 1, RunningColumns(gs[1..], g.1)[j]) {
        assert RunningColumns(gs[1..], g.1)[j] == cols[j + 1];
      }
      ParseGroupsKeeps(smap, gs[1..], st1, g.1, (gline, g.1));
    } else {
      forall j | k - 1 < j < |gs| - 1 ensures RunningColumns(gs[1..], g.1)[j] != RunningColumns(gs[1..], g.1)[k - 1] {
        assert cols[j + 1] != cols[k];
      }
      ParseGroupsRecords(smap, gs[1..], st1, g.1, k - 1);
    }
  }

  /**
   * `entries` holds at generated line `gline` the mapping the `k`-th group of
   * segment `line` gives, with the totals `t` before the segment.
   */
  predicate KeptIn(smap: JsonSourceMap, entries: map<Position, SourceMapping>, gline: int, line: string, k: nat, t: Totals)
  {
    k < |Segments(line)| && k < |LineColumns(line)|
    && var key := (gline, LineColumns(line)[k]);
    key in entries
    && RecordsTotals(smap, entries[key], key.0, key.1, GroupValues(Segments(line)[k]), TotalsAfter(t, Segments(line)[..k + 1]))
  }

  /** Reading the segments `a` and then `b` is reading `a + b`. */
  lemma {:induction false} ParseLinesAppend(smap: JsonSourceMap, a: seq<string>, b: seq<string>, st: ParseState)
    ensures ParseLines(smap, a + b, st)
         == match ParseLines(smap, a, st)
            case Failure(e) => Failure(e)
            case Success(st') => ParseLines(smap, b, st')
    decreases |a|
  {
    if a == [] {
      assert a + b == b;
    } else {
      assert (a + b)[0] == a[0] && (a + b)[1..] == a[1..] + b;
      var st0 := st.(index := st.index + [[]]);
      if a[0] == "" {
        ParseLinesAppend(smap, a[1..], b, st0);
      } else if ParseGroups(smap, Split(a[0], ','), st0, 0).Success? {
        ParseLinesAppend(smap, a[1..], b, ParseGroups(smap, Split(a[0], ','), st0, 0).value);
      }
    }
  }

  /** The state after the first segment, when that segment reads. */
  function AfterFirstLine(smap: JsonSourceMap, lines: seq<string>, st: ParseState): ParseState
    requires lines != [] && (lines[0] == "" || ParseGroups(smap, Split(lines[0], ','), st.(index := st.index + [[]]), 0).Success?)
  {
    var st0 := st.(index := st.index + [[]]);
    if lines[0] == "" then st0 else ParseGroups(smap, Split(lines[0], ','), st0, 0).value
  }

  /** The first turn of the outer loop, when the whole loop succeeds. */
  lemma FirstLineStep(smap: JsonSourceMap, lines: seq<string>, st: ParseState)
    requires lines != [] && ParseLines(smap, lines, st).Success?
    ensures lines[0] == "" || ParseGroups(smap, Split(lines[0], ','), st.(index := st.index + [[]]), 0).Success?
    ensures ParseLines(smap, lines, st) == ParseLines(smap, lines[1..], AfterFirstLine(smap, lines, st))
    ensures |AfterFirstLine(smap, lines, st).index| == |st.index| + 1
  {
    if lines[0] != "" {
      ParseGroupsShape(smap, Split(lines[0], ','), st.(index := st.index + [[]]), 0);
    }
  }

  /** The first segment's group at `k` keeps its mapping, when no later group of the segment shares its column. */
  lemma KeptAtFirst(smap: JsonSourceMap, lines: seq<string>, st: ParseState, k: nat)
    requires ParseLines(smap, lines, st).Success?
    requires 0 < |lines| && k < |Segments(lines[0])| && LastAt(LineColumns(lines[0]), k)
    ensures KeptIn(smap, ParseLines(smap, lines, st).value.entries, |st.index|, lines[0], k, st.totals)
  {
    FirstLineStep(smap, lines, st);
    var st1 := AfterFirstLine(smap, lines, st);
    var st0 := st.(index := st.index + [[]]);
    var key := (|st.index|, LineColumns(lines[0])[k]);
    ParseGroupsRecords(smap, Segments(lines[0]), st0, 0, k);
    ParseLinesKeeps(smap, lines[1..], st1, key);
  }

  /** `KeptIn` carried over equal arguments. */
  lemma KeptInSame(smap: JsonSourceMap, e: map<Position, SourceMapping>, e': map<Position, SourceMapping>,
                   g: int, g': int, line: string, line': string, k: nat, t: Totals)
    requires e == e' && g == g' && line == line'
    requires KeptIn(smap, e, g, line, k, t) == true
    ensures KeptIn(smap, e', g', line', k, t) == true
  {
  }

  /** What `KeptIn` says, for the totals counted from the start of the file. */
  lemma KeptInMeans(smap: JsonSourceMap, entries: map<Position, SourceMapping>, gline: int, line: string, k: nat,
                    before: seq<string>, t0: Totals, t: Totals)
    requires t == TotalsAfter(t0, before)
    requires KeptIn(smap, entries, gline, line, k, t) == true
    ensures k < |Segments(line)| && k < |LineColumns(line)|
    ensures var key := (gline, LineColumns(line)[k]);
      key in entries
      && RecordsTotals(smap, entries[key], key.0, key.1, GroupValues(Segments(line)[k]),
                       TotalsAfter(t0, before + Segments(line)[..k + 1]))
  {
    TotalsAfterAppend(t0, before, Segments(line)[..k + 1]);
  }

  /**
   * The mapping at the `k`-th column of generated line `l` of a map `from_json`
   * reads (the last group there, when several share a column): with a source,
   * it is `sources[spos]`, `sline`, `scol` and `contents[spos]` (or `None`
   * past its end) for the totals after that group, counted over the whole
   * file, empty segments included.
   */
  lemma FromJsonTotalsRecords(smap: JsonSourceMap, l: nat, k: nat)
    requires FromJsonSpec(smap).Success?
    requires l < |Split(smap.mappings, ';')|
    requires k < |Segments(Split(smap.mappings, ';')[l])|
    requires LastAt(LineColumns(Split(smap.mappings, ';')[l]), k)
    ensures var lines := Split(smap.mappings, ';');
      var key := (l as int, LineColumns(lines[l])[k]);
      var m := FromJsonSpec(smap).value;
      key in m.entries
      && RecordsTotals(smap, m.entries[key], key.0, key.1, GroupValues(Segments(lines[l])[k]),
                       TotalsAfter(Zero, FileGroups(lines[..l]) + Segments(lines[l])[..k + 1]))
  {
    var lines := Split(smap.mappings, ';');
    var pre, post := lines[..l], lines[l..];
    assert pre + post == lines;
    assert post[0] == lines[l];
    ParseLinesAppend(smap, pre, post, Start);
    ParseLinesTotals(smap, pre, Start);
    var mid := ParseLines(smap, pre, Start).value;
    KeptAtFirst(smap, post, mid, k);
    var e := FromJsonSpec(smap).value.entries;
    assert e == ParseLines(smap, post, mid).value.entries;
    KeptInSame(smap, ParseLines(smap, post, mid).value.entries, e, |mid.index|, l, post[0], lines[l], k, mid.totals);
    KeptInMeans(smap, e, l, lines[l], k, FileGroups(pre), Zero, mid.totals);
  }

  /** Every entry is kept from the last group at its position. */
  lemma LastGroupOfEntry(smap: JsonSourceMap, key: Position)
    requires FromJsonSpec(smap).Success? && key in FromJsonSpec(smap).value.entries
    ensures var lines := Split(smap.mappings, ';');
      0 <= key.0 < |lines|
      && exists k :: 0 <= k < |Segments(lines[key.0])| && LineColumns(lines[key.0])[k] == key.1
                   && LastAt(LineColumns(lines[key.0]), k)
  {
    FromJsonIndexed(smap);
    var lines := Split(smap.mappings, ';');
    LinesColumnsAt(lines, key.0);
    var cols := LineColumns(lines[key.0]);
    LineColumnsShape(lines[key.0]);
    var k0 :| 0 <= k0 < |cols| && cols[k0] == key.1;
    var k := LastIndex(cols, k0);
    assert LastAt(cols, k);
  }

  /** The last position holding the value at `k0`. */
  lemma {:induction false} LastIndex(cols: seq<int>, k0: nat) returns (k: nat)
    requires k0 < |cols|
    ensures k0 <= k < |cols| && cols[k] == cols[k0]
    ensures forall j :: k < j < |cols| ==> cols[j] != cols[k0]
    decreases |cols| - k0
  {
    if j :| k0 < j < |cols| && cols[j] == cols[k0] {
      k := LastIndex(cols, j);
    } else {
      k := k0;
    }
  }
}
