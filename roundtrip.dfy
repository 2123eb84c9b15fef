/**
 * The map round trip: `SourceMap.from_json(m.to_json())` gives back `m`'s
 * entries and `_index` for every map of the kind `from_json` builds, and in
 * particular for the map `from_json` read from a JSON object whose sources
 * are distinct and whose contents, if any, are one per source.
 */
module MapRoundTrip {
  import opened Wrappers
  import opened Text
  import opened Base64Vlq
  import opened Base64VlqProperties
  import opened Mappings
  import opened AutoIndexing
  import opened SourceMaps
  import opened FromJsonProperties
  import opened ToJsonProperties
  import opened ToJsonShape

  /** Every entry is of the form `from_json` makes and records its own position. */
  ghost predicate Placed(entries: map<Position, SourceMapping>)
  {
    forall key: Position :: key in entries ==>
      entries[key].line == key.0 && entries[key].column == key.1 && Canonical(entries[key])
  }

  /** Two mappings with the same source carry the same content. */
  ghost predicate OneContentPerSource(entries: map<Position, SourceMapping>)
  {
    forall k1: Position, k2: Position ::
      k1 in entries && k2 in entries && entries[k1].source.Some? && entries[k1].source == entries[k2].source
      ==> entries[k1].sourceContent == entries[k2].sourceContent
  }

  /**
   * The maps the round trip holds for: the dictionary-plus-index invariant,
   * at least one line, entries of the kind `from_json` makes, and one content
   * per source.
   */
  ghost predicate WellFormed(m: SourceMap)
  {
    Indexed(m) && |m.index| >= 1 && Placed(m.entries) && OneContentPerSource(m.entries)
  }

  /** The running totals of `to_json` read as those of `from_json`. */
  function TotalsOf(em: Emitter): Totals
  {
    Totals(em.spos, em.sline, em.scol, em.npos)
  }

  /** `keys` is a prefix of `all`. */
  predicate Prefix(keys: seq<string>, all: seq<string>)
  {
    |keys| <= |all| && all[..|keys|] == keys
  }

  /** The contents written agree with every entry of the same source. */
  ghost predicate ContentsAgree(j: JsonSourceMap, entries: map<Position, SourceMapping>)
  {
    |j.sourcesContent| == |j.sources|
    && forall key: Position, i :: key in entries && 0 <= i < |j.sources| && entries[key].source == Some(j.sources[i])
         ==> j.sourcesContent[i] == entries[key].sourceContent
  }

  /** What reading a line back relies on: entries of the `from_json` kind, with the contents written. */
  ghost predicate Readable(j: JsonSourceMap, entries: map<Position, SourceMapping>)
  {
    Placed(entries) && ContentsAgree(j, entries)
  }

  /** The dictionary `from_json` builds from line `gline`'s columns `cols` on top of `e`. */
  function PutLine(e: map<Position, SourceMapping>, entries: map<Position, SourceMapping>, gline: int, cols: seq<int>)
    : map<Position, SourceMapping>
    decreases |cols|
  {
    if cols == [] then e
    else PutLine(if (gline, cols[0]) in entries then e[(gline, cols[0]) := entries[(gline, cols[0])]] else e,
                 entries, gline, cols[1..])
  }

  /** The dictionary `from_json` builds from the lines `lines`, the first being `gline`. */
  function PutLines(e: map<Position, SourceMapping>, entries: map<Position, SourceMapping>, lines: seq<seq<int>>, gline: int)
    : map<Position, SourceMapping>
    decreases |lines|
  {
    if lines == [] then e else PutLines(PutLine(e, entries, gline, lines[0]), entries, lines[1..], gline + 1)
  }

  /** A key is set by a line exactly when it was already there or is a listed column with an entry. */
  lemma {:induction false} PutLineAt(e: map<Position, SourceMapping>, entries: map<Position, SourceMapping>, gline: int,
                                     cols: seq<int>, key: Position)
    ensures key in PutLine(e, entries, gline, cols) <==> key in e || (key.0 == gline && key.1 in cols && key in entries)
    ensures key in PutLine(e, entries, gline, cols) ==>
      PutLine(e, entries, gline, cols)[key] == if key.0 == gline && key.1 in cols && key in entries then entries[key] else e[key]
    decreases |cols|
  {
    if cols != [] {
      var e' := if (gline, cols[0]) in entries then e[(gline, cols[0]) := entries[(gline, cols[0])]] else e;
      PutLineAt(e', entries, gline, cols[1..], key);
      assert key.1 in cols <==> key.1 == cols[0] || key.1 in cols[1..];
    }
  }

  /** A key is set by the lines exactly when it was already there or is a listed position with an entry. */
  lemma {:induction false} PutLinesAt(e: map<Position, SourceMapping>, entries: map<Position, SourceMapping>,
                                      lines: seq<seq<int>>, gline: int, key: Position)
    ensures key in PutLines(e, entries, lines, gline)
        <==> key in e || (gline <= key.0 < gline + |lines| && key.1 in lines[key.0 - gline] && key in entries)
    ensures key in PutLines(e, entries, lines, gline) ==>
      PutLines(e, entries, lines, gline)[key]
      == if gline <= key.0 < gline + |lines| && key.1 in lines[key.0 - gline] && key in entries then entries[key] else e[key]
    decreases |lines|
  {
    if lines != [] {
      PutLineAt(e, entries, gline, lines[0], key);
      PutLinesAt(PutLine(e, entries, gline, lines[0]), entries, lines[1..], gline + 1, key);
      if gline + 1 <= key.0 < gline + |lines| {
        assert lines[1..][key.0 - (gline + 1)] == lines[key.0 - gline];
      }
    }
  }

  /** Reading every line of an indexed map from nothing gives back its dictionary. */
  lemma PutLinesAll(m: SourceMap)
    requires Indexed(m)
    ensures PutLines(map[], m.entries, m.index, 0) == m.entries
  {
    var e := PutLines(map[], m.entries, m.index, 0);
    forall key: Position ensures (key in e <==> key in m.entries) && (key in e ==> e[key] == m.entries[key]) {
      PutLinesAt(map[], m.entries, m.index, 0, key);
    }
  }

  /** Writing mappings only ever appends source keys. */
  lemma {:induction false} AbsorbAllPrefix(em: Emitter, rs: seq<SourceMapping>)
    requires em.Valid()
    ensures Prefix(em.sources.keys, AbsorbAll(em, rs).sources.keys)
    decreases |rs|
  {
    if rs != [] {
      var next := Absorb(em, rs[0]);
      EmitGroupParts(em, rs[0], 0, 0);
      AbsorbAllPrefix(next, rs[1..]);
      var all := AbsorbAll(em, rs).sources.keys;
      assert all[..|next.sources.keys|][..|em.sources.keys|] == all[..|em.sources.keys|];
    }
  }

  /**
   * One group read back: decoding what `to_json` wrote for `entry` against
   * the same running totals gives the same column, the same mapping and the
   * totals `to_json` moved to.
   */
  lemma GroupBack(j: JsonSourceMap, em: Emitter, entry: SourceMapping, gline: int, gcol: int, col: int)
    requires em.Valid() && Canonical(entry) && entry.line == gline && entry.column == col
    requires Prefix(EmitGroup(em, entry, gcol, col).0.sources.keys, j.sources)
    requires entry.source.Some? ==>
      |j.sourcesContent| == |j.sources|
      && forall i :: 0 <= i < |j.sources| && j.sources[i] == entry.source.value ==> j.sourcesContent[i] == entry.sourceContent
    ensures var step := EmitGroup(em, entry, gcol, col);
      Group(j, Encode(step.1), TotalsOf(em), gline, gcol) == Success((TotalsOf(step.0), col, entry))
  {
    var step := EmitGroup(em, entry, gcol, col);
    RoundTrip(step.1);
    if entry.source.Some? {
      var interned := Intern(em.sources, entry.source.value);
      var id := interned.1;
      assert step.0.sources == interned.0;
      assert j.sources[..|interned.0.keys|][id] == j.sources[id] == entry.source.value;
      assert step.1[1..] == [id - em.spos, entry.sourceLine.value - em.sline, entry.sourceColumn.value - em.scol];
    }
  }

  /** One turn of the inner loop of `from_json` on the group at `n`, when it reads. */
  lemma ParseGroupsAt(j: JsonSourceMap, groups: seq<string>, n: nat, st: ParseState, gcol: int,
                      x: (Totals, int, SourceMapping), res: Result<ParseState, MapError>)
    requires |groups| > n && |st.index| >= 1 && Group(j, groups[n], st.totals, |st.index| - 1, gcol) == Success(x)
    requires var gline := |st.index| - 1;
      ParseGroups(j, groups[n + 1..], ParseState(x.0, st.entries[(gline, x.1) := x.2], st.index[gline := st.index[gline] + [x.1]]), x.1)
      == res
    ensures ParseGroups(j, groups[n..], st, gcol) == res
  {
    assert groups[n..][0] == groups[n] && groups[n..][1..] == groups[n + 1..];
  }

  /** Source keys only ever grow by appending, so a prefix of a prefix is a prefix. */
  lemma PrefixTrans(a: seq<string>, b: seq<string>, c: seq<string>)
    requires Prefix(a, b) && Prefix(b, c)
    ensures Prefix(a, c)
  {
    assert c[..|b|][..|a|] == c[..|a|];
  }

  /** The source keys after the first group of a line are a prefix of those after the whole line. */
  lemma FirstGroupPrefix(em: Emitter, entries: map<Position, SourceMapping>, gline: int,
                         cols: seq<int>, gcol: int, mapping: seq<string>, out: (Emitter, seq<string>))
    requires em.Valid() && cols != [] && EmitLine(em, entries, gline, cols, gcol, mapping) == Success(out)
    ensures (gline, cols[0]) in entries
    ensures Prefix(EmitGroup(em, entries[(gline, cols[0])], gcol, cols[0]).0.sources.keys, out.0.sources.keys)
  {
    var col := cols[0];
    var entry := entries[(gline, col)];
    var step := EmitGroup(em, entry, gcol, col);
    AbsorbColumnFree(em, entry, gcol, col);
    EmitLineAbsorbs(step.0, entries, gline, cols[1..], col, mapping + [Encode(step.1)]);
    AbsorbAllPrefix(step.0, LineRecords(entries, gline, cols[1..]));
  }

  /** The first group of a line reads back, its source number pointing at its source in the final list. */
  lemma FirstGroupBack(j: JsonSourceMap, em: Emitter, entries: map<Position, SourceMapping>, gline: int,
                       cols: seq<int>, gcol: int, mapping: seq<string>, out: (Emitter, seq<string>))
    requires em.Valid() && cols != [] && EmitLine(em, entries, gline, cols, gcol, mapping) == Success(out)
    requires Placed(entries) && ContentsAgree(j, entries) && Prefix(out.0.sources.keys, j.sources)
    ensures (gline, cols[0]) in entries
    ensures var entry := entries[(gline, cols[0])];
      var step := EmitGroup(em, entry, gcol, cols[0]);
      Group(j, Encode(step.1), TotalsOf(em), gline, gcol) == Success((TotalsOf(step.0), cols[0], entry))
  {
    FirstGroupPrefix(em, entries, gline, cols, gcol, mapping, out);
    var entry := entries[(gline, cols[0])];
    PrefixTrans(EmitGroup(em, entry, gcol, cols[0]).0.sources.keys, out.0.sources.keys, j.sources);
    GroupBack(j, em, entry, gline, gcol, cols[0]);
  }

  /** The end of a line: no more groups, nothing more read. */
  lemma LineBackEnd(j: JsonSourceMap, em: Emitter, entries: map<Position, SourceMapping>, gline: int, gcol: int,
                    mapping: seq<string>, e: map<Position, SourceMapping>, before: seq<seq<int>>, row: seq<int>,
                    out: (Emitter, seq<string>))
    requires em.Valid() && EmitLine(em, entries, gline, [], gcol, mapping) == Success(out)
    ensures ParseGroups(j, out.1[|mapping|..], ParseState(TotalsOf(em), e, before + [row]), gcol)
      == Success(ParseState(TotalsOf(out.0), PutLine(e, entries, gline, []), before + [row + []]))
  {
    assert out.1[|mapping|..] == [];
    assert row + [] == row;
  }

  /**
   * The head of a line: the first column's group is the first group appended,
   * it reads back as that column's entry, and the rest of the line is written
   * from the totals it leaves.
   */
  lemma LineHead(j: JsonSourceMap, em: Emitter, entries: map<Position, SourceMapping>, gline: int,
                 cols: seq<int>, gcol: int, mapping: seq<string>, out: (Emitter, seq<string>))
    returns (next: Emitter, g: string)
    requires em.Valid() && cols != [] && EmitLine(em, entries, gline, cols, gcol, mapping) == Success(out)
    requires Readable(j, entries) && Prefix(out.0.sources.keys, j.sources)
    ensures (gline, cols[0]) in entries && next.Valid()
    ensures EmitLine(next, entries, gline, cols[1..], cols[0], mapping + [g]) == Success(out)
    ensures |out.1| > |mapping| && out.1[|mapping|] == g
    ensures Group(j, g, TotalsOf(em), gline, gcol) == Success((TotalsOf(next), cols[0], entries[(gline, cols[0])]))
  {
    FirstGroupBack(j, em, entries, gline, cols, gcol, mapping, out);
    LineStep(em, entries, gline, cols, gcol, mapping, out);
    LineTail(em, entries, gline, cols, gcol, mapping, out);
    var step := EmitGroup(em, entries[(gline, cols[0])], gcol, cols[0]);
    next, g := step.0, Encode(step.1);
  }

  /**
   * The step of the line read-back: the group at `n` reads as the first
   * column's entry, and the groups after it read as the rest of the line.
   */
  lemma LineBackStep(j: JsonSourceMap, groups: seq<string>, n: nat, totals: Totals, next: Totals, final: Totals,
                     e: map<Position, SourceMapping>, entries: map<Position, SourceMapping>, gline: int,
                     cols: seq<int>, gcol: int, before: seq<seq<int>>, row: seq<int>)
    requires cols != [] && gline == |before| && |groups| > n && (gline, cols[0]) in entries
    requires Group(j, groups[n], totals, gline, gcol) == Success((next, cols[0], entries[(gline, cols[0])]))
    requires var e' := e[(gline, cols[0]) := entries[(gline, cols[0])]];
      ParseGroups(j, groups[n + 1..], ParseState(next, e', before + [row + [cols[0]]]), cols[0])
      == Success(ParseState(final, PutLine(e', entries, gline, cols[1..]), before + [row + [cols[0]] + cols[1..]]))
    ensures ParseGroups(j, groups[n..], ParseState(totals, e, before + [row]), gcol)
      == Success(ParseState(final, PutLine(e, entries, gline, cols), before + [row + cols]))
  {
    SnocLast(before, row, cols[0], cols[1..]);
    assert [cols[0]] + cols[1..] == cols;
    ParseGroupsAt(j, groups, n, ParseState(totals, e, before + [row]), gcol, (next, cols[0], entries[(gline, cols[0])]),
                  Success(ParseState(final, PutLine(e, entries, gline, cols), before + [row + cols])));
  }

  /**
   * One line read back: the groups the inner loop of `to_json` wrote, read
   * by the inner loop of `from_json` from the same totals, give the same
   * totals, the line's entries and the line's columns.
   */
  lemma {:induction false} LineBack(j: JsonSourceMap, em: Emitter, entries: map<Position, SourceMapping>, gline: int,
                                    cols: seq<int>, gcol: int, mapping: seq<string>,
                                    e: map<Position, SourceMapping>, before: seq<seq<int>>, row: seq<int>,
                                    out: (Emitter, seq<string>))
    requires em.Valid() && EmitLine(em, entries, gline, cols, gcol, mapping) == Success(out)
    requires gline == |before| && Readable(j, entries)
    requires Prefix(out.0.sources.keys, j.sources)
    ensures ParseGroups(j, out.1[|mapping|..], ParseState(TotalsOf(em), e, before + [row]), gcol)
      == Success(ParseState(TotalsOf(out.0), PutLine(e, entries, gline, cols), before + [row + cols]))
    decreases |cols|
  {
    if cols == [] {
      LineBackEnd(j, em, entries, gline, gcol, mapping, e, before, row, out);
    } else {
      var col := cols[0];
      var next, g := LineHead(j, em, entries, gline, cols, gcol, mapping, out);
      LineBack(j, next, entries, gline, cols[1..], col, mapping + [g], e[(gline, col) := entries[(gline, col)]], before,
               row + [col], out);
      LineBackStep(j, out.1, |mapping|, TotalsOf(em), TotalsOf(next), TotalsOf(out.0), e, entries, gline, cols, gcol,
                   before, row);
    }
  }

  /** One turn of the outer loop of `from_json` on a segment that reads. */
  lemma ParseLinesCons(j: JsonSourceMap, seg: string, rest: seq<string>, st: ParseState, st'': ParseState)
    requires var st' := st.(index := st.index + [[]]);
      (if seg == "" then Success(st') else ParseGroups(j, Split(seg, ','), st', 0)) == Success(st'')
    ensures ParseLines(j, [seg] + rest, st) == ParseLines(j, rest, st'')
  {
    assert ([seg] + rest)[0] == seg && ([seg] + rest)[1..] == rest;
  }

  /** The source keys after the first line are a prefix of those after all the lines. */
  lemma FirstLinePrefix(em: Emitter, entries: map<Position, SourceMapping>, lines: seq<seq<int>>, gline: int,
                        mappings: seq<string>, out: (Emitter, seq<string>))
    requires em.Valid() && lines != [] && EmitLines(em, entries, lines, gline, mappings) == Success(out)
    ensures EmitLine(em, entries, gline, lines[0], 0, []).Success?
    ensures Prefix(EmitLine(em, entries, gline, lines[0], 0, []).value.0.sources.keys, out.0.sources.keys)
  {
    var line := EmitLine(em, entries, gline, lines[0], 0, []).value;
    EmitLinesAbsorbs(line.0, entries, lines[1..], gline + 1, mappings + [Join(line.1, ',')]);
    AbsorbAllPrefix(line.0, Records(entries, lines[1..], gline + 1));
  }

  /** The first line read back: its segment gives its totals, its entries and its columns. */
  lemma FirstLineBack(j: JsonSourceMap, em: Emitter, entries: map<Position, SourceMapping>, cols: seq<int>,
                      gline: int, e: map<Position, SourceMapping>, before: seq<seq<int>>, line: (Emitter, seq<string>))
    requires em.Valid() && EmitLine(em, entries, gline, cols, 0, []) == Success(line)
    requires gline == |before| && Placed(entries) && ContentsAgree(j, entries)
    requires Prefix(line.0.sources.keys, j.sources)
    ensures var seg := Join(line.1, ',');
      var st' := ParseState(TotalsOf(em), e, before + [[]]);
      (if seg == "" then Success(st') else ParseGroups(j, Split(seg, ','), st', 0))
      == Success(ParseState(TotalsOf(line.0), PutLine(e, entries, gline, cols), before + [cols]))
  {
    Segment(em, entries, gline, cols);
    LineBack(j, em, entries, gline, cols, 0, [], e, before, [], line);
    assert line.1[0..] == line.1 && [] + cols == cols;
  }

  lemma SnocTail<T>(before: seq<T>, xs: seq<T>)
    requires xs != []
    ensures before + [xs[0]] + xs[1..] == before + xs
  {
    assert xs == [xs[0]] + xs[1..];
  }

  /**
   * All lines read back: the segments the outer loop of `to_json` wrote,
   * read by the outer loop of `from_json` from the same totals, give the
   * same totals, every listed entry and the lines themselves.
   */
  lemma {:induction false} LinesBack(j: JsonSourceMap, em: Emitter, entries: map<Position, SourceMapping>,
                                     lines: seq<seq<int>>, gline: int, mappings: seq<string>,
                                     e: map<Position, SourceMapping>, before: seq<seq<int>>, out: (Emitter, seq<string>))
    requires em.Valid() && EmitLines(em, entries, lines, gline, mappings) == Success(out)
    requires gline == |before| && Placed(entries) && ContentsAgree(j, entries)
    requires Prefix(out.0.sources.keys, j.sources)
    ensures ParseLines(j, out.1[|mappings|..], ParseState(TotalsOf(em), e, before))
      == Success(ParseState(TotalsOf(out.0), PutLines(e, entries, lines, gline), before + lines))
    decreases |lines|
  {
    if lines == [] {
      assert out.1[|mappings|..] == [];
      assert before + [] == before;
    } else {
      var first, rest := lines[0], lines[1..];
      FirstLinePrefix(em, entries, lines, gline, mappings, out);
      LinesTail(em, entries, lines, gline, mappings, out);
      var line := EmitLine(em, entries, gline, first, 0, []).value;
      var seg := Join(line.1, ',');
      PrefixTrans(line.0.sources.keys, out.0.sources.keys, j.sources);
      FirstLineBack(j, em, entries, first, gline, e, before, line);
      var e' := PutLine(e, entries, gline, first);
      var before' := before + [first];
      ParseLinesCons(j, seg, out.1[|mappings| + 1..], ParseState(TotalsOf(em), e, before),
                     ParseState(TotalsOf(line.0), e', before'));
      LinesBack(j, line.0, entries, rest, gline + 1, mappings + [seg], e', before', out);
      SnocTail(before, lines);
    }
  }

  /** The content of the first mapping of a source is that of some mapping of that source. */
  lemma {:induction false} FirstContentOf(rs: seq<SourceMapping>, s: string)
    requires s in SourcesOf(rs)
    ensures exists k :: 0 <= k < |rs| && rs[k].source == Some(s) && rs[k].sourceContent == FirstContent(rs, s)
    decreases |rs|
  {
    if rs[0].source != Some(s) {
      FirstContentOf(rs[1..], s);
      var k :| 0 <= k < |rs[1..]| && rs[1..][k].source == Some(s) && rs[1..][k].sourceContent == FirstContent(rs[1..], s);
      assert rs[k + 1] == rs[1..][k];
    } else {
      assert rs[0].source == Some(s);
    }
  }

  /** The mappings `to_json` visits on a line are entries. */
  lemma {:induction false} LineRecordsFromEntries(entries: map<Position, SourceMapping>, gline: int, cols: seq<int>)
    ensures forall k :: 0 <= k < |LineRecords(entries, gline, cols)| ==> LineRecords(entries, gline, cols)[k] in entries.Values
    decreases |cols|
  {
    if cols != [] {
      LineRecordsFromEntries(entries, gline, cols[1..]);
      var head := if (gline, cols[0]) in entries then [entries[(gline, cols[0])]] else [];
      var rs := LineRecords(entries, gline, cols);
      assert rs == head + LineRecords(entries, gline, cols[1..]);
      forall k | 0 <= k < |rs| ensures rs[k] in entries.Values {
        if k < |head| {
          assert rs[k] == entries[(gline, cols[0])];
        } else {
          assert rs[k] == LineRecords(entries, gline, cols[1..])[k - |head|];
        }
      }
    }
  }

  /** The mappings `to_json` visits are entries. */
  lemma {:induction false} RecordsFromEntries(entries: map<Position, SourceMapping>, lines: seq<seq<int>>, gline: int)
    ensures forall k :: 0 <= k < |Records(entries, lines, gline)| ==> Records(entries, lines, gline)[k] in entries.Values
    decreases |lines|
  {
    if lines != [] {
      LineRecordsFromEntries(entries, gline, lines[0]);
      RecordsFromEntries(entries, lines[1..], gline + 1);
      var head := LineRecords(entries, gline, lines[0]);
      var rs := Records(entries, lines, gline);
      forall k | 0 <= k < |rs| ensures rs[k] in entries.Values {
        if k < |head| {
          assert rs[k] == head[k];
        } else {
          assert rs[k] == Records(entries, lines[1..], gline + 1)[k - |head|];
        }
      }
    }
  }

  /** With one content per source, the contents `to_json` writes agree with every entry. */
  lemma ToJsonContentsAgree(m: SourceMap)
    requires ToJsonSpec(m).Success? && OneContentPerSource(m.entries)
    ensures ContentsAgree(ToJsonSpec(m).value, m.entries)
  {
    var j := ToJsonSpec(m).value;
    var rs := Records(m.entries, m.index, 0);
    ToJsonSources(m);
    FirstSeenOrder(SourcesOf(rs));
    RecordsFromEntries(m.entries, m.index, 0);
    forall key: Position, i | key in m.entries && 0 <= i < |j.sources| && m.entries[key].source == Some(j.sources[i])
      ensures j.sourcesContent[i] == m.entries[key].sourceContent
    {
      var s := j.sources[i];
      FirstContentOf(rs, s);
      var k :| 0 <= k < |rs| && rs[k].source == Some(s) && rs[k].sourceContent == FirstContent(rs, s);
      assert rs[k] in m.entries.Values;
      var key' :| key' in m.entries && m.entries[key'] == rs[k];
      assert j.sourcesContent[i] == FirstContent(rs, s);
    }
  }

  /**
   * Map round trip: a map of the kind `from_json` builds is written by
   * `to_json` without error, and `from_json` reads back its entries and
   * `_index` (and its `file` and `sourceRoot`).
   */
  lemma ToJsonFromJson(m: SourceMap)
    requires WellFormed(m)
    ensures ToJsonSpec(m).Success?
    ensures FromJsonSpec(ToJsonSpec(m).value) == Success(m)
  {
    ToJsonSucceeds(m);
    forall l, c | 0 <= l < |m.index| && c in m.index[l] ensures (l, c) in m.entries {
      var key: Position := (l, c);
      assert key in m.entries;
    }
    var j := ToJsonSpec(m).value;
    var out := EmitLines(Fresh, m.entries, m.index, 0, []).value;
    EmitLinesGrows(Fresh, m.entries, m.index, 0, []);
    SplitJoin(out.1, ';');
    assert out.1[0..] == out.1;
    ToJsonContentsAgree(m);
    assert Prefix(out.0.sources.keys, j.sources);
    LinesBack(j, Fresh, m.entries, m.index, 0, [], map[], [], out);
    PutLinesAll(m);
    assert [] + m.index == m.index;
  }

  /** With one content per source: the records of one source carry one content. */
  lemma AlignedOneContent(smap: JsonSourceMap)
    requires FromJsonSpec(smap).Success? && Aligned(smap)
    ensures OneContentPerSource(FromJsonSpec(smap).value.entries)
  {
    var m := FromJsonSpec(smap).value;
    FromJsonRecords(smap);
    forall k1: Position, k2: Position |
      k1 in m.entries && k2 in m.entries && m.entries[k1].source.Some? && m.entries[k1].source == m.entries[k2].source
      ensures m.entries[k1].sourceContent == m.entries[k2].sourceContent
    {
      var s := m.entries[k1].source.value;
      var q :| 0 <= q < |smap.sources| && smap.sources[q] == s;
    }
  }

  /**
   * Map round trip from the JSON side: when the sources are distinct and
   * `sourcesContent` is absent or has one entry per source, the map
   * `from_json` reads is written and read back to itself.
   */
  lemma FromJsonToJson(smap: JsonSourceMap)
    requires FromJsonSpec(smap).Success? && Aligned(smap)
    ensures WellFormed(FromJsonSpec(smap).value)
    ensures ToJsonSpec(FromJsonSpec(smap).value).Success?
    ensures FromJsonSpec(ToJsonSpec(FromJsonSpec(smap).value).value) == FromJsonSpec(smap)
  {
    var m := FromJsonSpec(smap).value;
    FromJsonIndexed(smap);
    FromJsonRecords(smap);
    AlignedOneContent(smap);
    ToJsonFromJson(m);
  }
}
