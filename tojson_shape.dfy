/**
 * The `mappings` string `SourceMap.to_json` writes: one `;`-separated
 * segment per `_index` line, one `,`-separated group per listed column whose
 * column delta leads back to that column, and a failure exactly when a
 * listed column has no entry.
 */
module ToJsonShape {
  import opened Wrappers
  import opened Text
  import opened Base64Vlq
  import opened Base64VlqProperties
  import opened Mappings
  import opened SourceMaps
  import opened FromJsonProperties

  /** Neither separator of `mappings` occurs in `s`. */
  predicate Plain(s: string)
  {
    ',' !in s && ';' !in s
  }

  /** A group is a nonempty run of alphabet symbols, so it holds neither separator. */
  lemma EncodePlain(ds: seq<int>)
    requires ds != []
    ensures Encode(ds) != [] && Plain(Encode(ds))
  {
    EncodeConcat(ds, []);
    EncodeInAlphabet(ds);
    assert Table(',').None? && Table(';').None?;
  }

  /** The inner loop only appends, and what it appends is one nonempty group per column, free of separators. */
  lemma {:induction false} EmitLineGrows(em: Emitter, entries: map<Position, SourceMapping>, gline: int, cols: seq<int>,
                                         gcol: int, mapping: seq<string>)
    requires em.Valid() && EmitLine(em, entries, gline, cols, gcol, mapping).Success?
    ensures var out := EmitLine(em, entries, gline, cols, gcol, mapping).value.1;
      out[..|mapping|] == mapping && forall k :: |mapping| <= k < |out| ==> out[k] != [] && Plain(out[k])
    decreases |cols|
  {
    if cols != [] {
      var step := EmitGroup(em, entries[(gline, cols[0])], gcol, cols[0]);
      var g := Encode(step.1);
      EmitLineGrows(step.0, entries, gline, cols[1..], cols[0], mapping + [g]);
      EncodePlain(step.1);
      var out := EmitLine(em, entries, gline, cols, gcol, mapping).value.1;
      SnocPrefix(out, mapping, g);
    }
  }

  /** One turn of the inner loop of `to_json`: the first column's group, then the rest of the line. */
  lemma LineStep(em: Emitter, entries: map<Position, SourceMapping>, gline: int, cols: seq<int>, gcol: int,
                 mapping: seq<string>, out: (Emitter, seq<string>))
    requires em.Valid() && cols != [] && EmitLine(em, entries, gline, cols, gcol, mapping) == Success(out)
    ensures (gline, cols[0]) in entries
    ensures var step := EmitGroup(em, entries[(gline, cols[0])], gcol, cols[0]);
      EmitLine(step.0, entries, gline, cols[1..], cols[0], mapping + [Encode(step.1)]) == Success(out)
  {
  }

  /** What the inner loop of `to_json` writes from its first column on. */
  lemma LineTail(em: Emitter, entries: map<Position, SourceMapping>, gline: int, cols: seq<int>, gcol: int,
                 mapping: seq<string>, out: (Emitter, seq<string>))
    requires em.Valid() && cols != [] && EmitLine(em, entries, gline, cols, gcol, mapping) == Success(out)
    ensures (gline, cols[0]) in entries
    ensures var step := EmitGroup(em, entries[(gline, cols[0])], gcol, cols[0]);
      |out.1| > |mapping| && out.1[|mapping|] == Encode(step.1)
  {
    var step := EmitGroup(em, entries[(gline, cols[0])], gcol, cols[0]);
    EmitLineGrows(step.0, entries, gline, cols[1..], cols[0], mapping + [Encode(step.1)]);
    SnocPrefix(out.1, mapping, Encode(step.1));
  }

  /** The column delta of a group written at `col` after `gcol`. */
  lemma GroupColumnDelta(em: Emitter, entry: SourceMapping, gcol: int, col: int)
    requires em.Valid()
    ensures ColumnDelta(Encode(EmitGroup(em, entry, gcol, col).1)) == col - gcol
  {
    RoundTrip(EmitGroup(em, entry, gcol, col).1);
  }

  /** One step of the running columns of the groups appended after `n`. */
  lemma RunningColumnsCons(out: seq<string>, n: nat, gcol: int, col: int, cols: seq<int>)
    requires |out| > n && gcol + ColumnDelta(out[n]) == col && RunningColumns(out[n + 1..], col) == cols
    ensures RunningColumns(out[n..], gcol) == [col] + cols
  {
    assert out[n..][0] == out[n] && out[n..][1..] == out[n + 1..];
  }

  /** The column deltas of the groups the inner loop appends add up from `gcol` to the listed columns. */
  lemma {:induction false} EmitLineColumns(em: Emitter, entries: map<Position, SourceMapping>, gline: int, cols: seq<int>,
                                           gcol: int, mapping: seq<string>, out: (Emitter, seq<string>))
    requires em.Valid() && EmitLine(em, entries, gline, cols, gcol, mapping) == Success(out)
    ensures RunningColumns(out.1[|mapping|..], gcol) == cols
    decreases |cols|
  {
    if cols == [] {
      assert out.1[|mapping|..] == [];
    } else {
      var step := EmitGroup(em, entries[(gline, cols[0])], gcol, cols[0]);
      var g := Encode(step.1);
      LineStep(em, entries, gline, cols, gcol, mapping, out);
      LineTail(em, entries, gline, cols, gcol, mapping, out);
      EmitLineColumns(step.0, entries, gline, cols[1..], cols[0], mapping + [g], out);
      GroupColumnDelta(em, entries[(gline, cols[0])], gcol, cols[0]);
      RunningColumnsCons(out.1, |mapping|, gcol, cols[0], cols[1..]);
      assert [cols[0]] + cols[1..] == cols;
    }
  }

  /** The columns the segment of one line gives are that line's columns. */
  lemma SegmentColumns(em: Emitter, entries: map<Position, SourceMapping>, gline: int, cols: seq<int>,
                       line: (Emitter, seq<string>))
    requires em.Valid() && EmitLine(em, entries, gline, cols, 0, []) == Success(line)
    ensures LineColumns(Join(line.1, ',')) == cols
  {
    Segment(em, entries, gline, cols);
  }

  /** The segment of one line: no `;`, empty exactly for an empty line, and its groups give back the columns. */
  lemma Segment(em: Emitter, entries: map<Position, SourceMapping>, gline: int, cols: seq<int>)
    requires em.Valid() && EmitLine(em, entries, gline, cols, 0, []).Success?
    ensures var groups := EmitLine(em, entries, gline, cols, 0, []).value.1;
      ';' !in Join(groups, ',') && LineColumns(Join(groups, ',')) == cols
      && (cols == [] ==> Join(groups, ',') == "")
      && (cols != [] ==> Join(groups, ',') != "" && Split(Join(groups, ','), ',') == groups)
  {
    var groups := EmitLine(em, entries, gline, cols, 0, []).value.1;
    EmitLineGrows(em, entries, gline, cols, 0, []);
    EmitLineColumns(em, entries, gline, cols, 0, [], EmitLine(em, entries, gline, cols, 0, []).value);
    assert groups[0..] == groups;
    JoinAbsent(groups, ',', ';');
    if cols != [] {
      SplitJoin(groups, ',');
      assert Join(groups, ',') != [] by {
        if |groups| > 1 {
          assert Join(groups, ',') == groups[0] + [','] + Join(groups[1..], ',');
        }
      }
    }
  }

  /** The outer loop only appends, and what it appends is one segment per line, free of `;`. */
  lemma {:induction false} EmitLinesGrows(em: Emitter, entries: map<Position, SourceMapping>, lines: seq<seq<int>>,
                                          gline: int, mappings: seq<string>)
    requires em.Valid() && EmitLines(em, entries, lines, gline, mappings).Success?
    ensures var out := EmitLines(em, entries, lines, gline, mappings).value.1;
      out[..|mappings|] == mappings && forall k :: |mappings| <= k < |out| ==> ';' !in out[k]
    decreases |lines|
  {
    if lines != [] {
      var line := EmitLine(em, entries, gline, lines[0], 0, []).value;
      var seg := Join(line.1, ',');
      Segment(em, entries, gline, lines[0]);
      EmitLinesGrows(line.0, entries, lines[1..], gline + 1, mappings + [seg]);
      var out := EmitLines(em, entries, lines, gline, mappings).value.1;
      SnocPrefix(out, mappings, seg);
    }
  }

  /** What the outer loop of `to_json` writes from its first line on. */
  lemma LinesTail(em: Emitter, entries: map<Position, SourceMapping>, lines: seq<seq<int>>, gline: int,
                  mappings: seq<string>, out: (Emitter, seq<string>))
    requires em.Valid() && lines != [] && EmitLines(em, entries, lines, gline, mappings) == Success(out)
    ensures EmitLine(em, entries, gline, lines[0], 0, []).Success?
    ensures var line := EmitLine(em, entries, gline, lines[0], 0, []).value;
      var seg := Join(line.1, ',');
      EmitLines(line.0, entries, lines[1..], gline + 1, mappings + [seg]) == Success(out)
      && |out.1| > |mappings| && out.1[|mappings|..] == [seg] + out.1[|mappings| + 1..]
  {
    var line := EmitLine(em, entries, gline, lines[0], 0, []).value;
    var rest := mappings + [Join(line.1, ',')];
    EmitLinesGrows(line.0, entries, lines[1..], gline + 1, rest);
    SnocPrefix(out.1, mappings, Join(line.1, ','));
  }

  /** One step of the lines of `_index` read from the segments appended after `n`. */
  lemma LinesColumnsCons(out: seq<string>, n: nat, line: seq<int>, lines: seq<seq<int>>)
    requires |out| > n && LineColumns(out[n]) == line && LinesColumns(out[n + 1..]) == lines
    ensures LinesColumns(out[n..]) == [line] + lines
  {
    assert out[n..][0] == out[n] && out[n..][1..] == out[n + 1..];
  }

  /** The columns the appended segments give are the lines of `_index`. */
  lemma {:induction false} EmitLinesColumns(em: Emitter, entries: map<Position, SourceMapping>, lines: seq<seq<int>>,
                                            gline: int, mappings: seq<string>, out: (Emitter, seq<string>))
    requires em.Valid() && EmitLines(em, entries, lines, gline, mappings) == Success(out)
    ensures LinesColumns(out.1[|mappings|..]) == lines
    decreases |lines|
  {
    if lines == [] {
      assert out.1[|mappings|..] == [];
    } else {
      var line := EmitLine(em, entries, gline, lines[0], 0, []).value;
      var seg := Join(line.1, ',');
      LinesTail(em, entries, lines, gline, mappings, out);
      SegmentColumns(em, entries, gline, lines[0], line);
      EmitLinesColumns(line.0, entries, lines[1..], gline + 1, mappings + [seg], out);
      LinesColumnsCons(out.1, |mappings|, lines[0], lines[1..]);
      assert [lines[0]] + lines[1..] == lines;
    }
  }

  /**
   * `to_json` shape: `mappings` has one `;`-separated segment per `_index`
   * line and one `,`-separated group per listed column, the column deltas
   * giving back the columns. An empty `_index` gives the empty string, which
   * reads back as one empty line.
   */
  lemma ToJsonShape(m: SourceMap)
    requires ToJsonSpec(m).Success?
    ensures var j := ToJsonSpec(m).value;
      (|m.index| >= 1 ==> LinesColumns(Split(j.mappings, ';')) == m.index)
      && (|m.index| == 0 ==> j.mappings == "")
  {
    var out := EmitLines(Fresh, m.entries, m.index, 0, []).value.1;
    EmitLinesGrows(Fresh, m.entries, m.index, 0, []);
    EmitLinesColumns(Fresh, m.entries, m.index, 0, [], EmitLines(Fresh, m.entries, m.index, 0, []).value);
    assert out[0..] == out;
    if |m.index| >= 1 {
      SplitJoin(out, ';');
    }
  }

  /** Every column of line `gline` has an entry. */
  predicate LineCovered(entries: map<Position, SourceMapping>, gline: int, cols: seq<int>)
  {
    forall c :: c in cols ==> (gline, c) in entries
  }

  /** Every column of every line, counted from `gline`, has an entry. */
  predicate Covered(entries: map<Position, SourceMapping>, lines: seq<seq<int>>, gline: int)
  {
    forall l :: 0 <= l < |lines| ==> LineCovered(entries, gline + l, lines[l])
  }

  lemma CoveredCons(entries: map<Position, SourceMapping>, lines: seq<seq<int>>, gline: int)
    requires lines != []
    ensures Covered(entries, lines, gline) <==> LineCovered(entries, gline, lines[0]) && Covered(entries, lines[1..], gline + 1)
  {
    if LineCovered(entries, gline, lines[0]) && Covered(entries, lines[1..], gline + 1) {
      forall l | 0 <= l < |lines| ensures LineCovered(entries, gline + l, lines[l]) {
        if l > 0 {
          assert lines[l] == lines[1..][l - 1];
        }
      }
    }
    if Covered(entries, lines, gline) {
      assert LineCovered(entries, gline + 0, lines[0]);
      forall l | 0 <= l < |lines| - 1 ensures LineCovered(entries, gline + 1 + l, lines[1..][l]) {
        assert LineCovered(entries, gline + (l + 1), lines[l + 1]);
      }
    }
  }

  /** The inner loop fails exactly when a column of the line has no entry. */
  lemma {:induction false} EmitLineSucceeds(em: Emitter, entries: map<Position, SourceMapping>, gline: int, cols: seq<int>,
                                            gcol: int, mapping: seq<string>)
    requires em.Valid()
    ensures EmitLine(em, entries, gline, cols, gcol, mapping).Success? <==> LineCovered(entries, gline, cols)
    decreases |cols|
  {
    if cols != [] {
      assert forall c :: c in cols <==> c == cols[0] || c in cols[1..];
      if (gline, cols[0]) in entries {
        var step := EmitGroup(em, entries[(gline, cols[0])], gcol, cols[0]);
        EmitLineSucceeds(step.0, entries, gline, cols[1..], cols[0], mapping + [Encode(step.1)]);
      }
    }
  }

  /** The outer loop fails exactly when a listed column of some line has no entry. */
  lemma {:induction false} EmitLinesSucceeds(em: Emitter, entries: map<Position, SourceMapping>, lines: seq<seq<int>>,
                                             gline: int, mappings: seq<string>)
    requires em.Valid()
    ensures EmitLines(em, entries, lines, gline, mappings).Success? <==> Covered(entries, lines, gline)
    decreases |lines|
  {
    if lines != [] {
      CoveredCons(entries, lines, gline);
      EmitLineSucceeds(em, entries, gline, lines[0], 0, []);
      var line := EmitLine(em, entries, gline, lines[0], 0, []);
      if line.Success? {
        EmitLinesSucceeds(line.value.0, entries, lines[1..], gline + 1, mappings + [Join(line.value.1, ',')]);
      }
    }
  }

  /** `to_json` raises `KeyError` exactly when a column listed on a line of `_index` has no entry. */
  lemma ToJsonSucceeds(m: SourceMap)
    ensures ToJsonSpec(m).Success? <==> forall l, c :: 0 <= l < |m.index| && c in m.index[l] ==> (l, c) in m.entries
  {
    EmitLinesSucceeds(Fresh, m.entries, m.index, 0, []);
    assert Covered(m.entries, m.index, 0) <==> forall l :: 0 <= l < |m.index| ==> LineCovered(m.entries, l, m.index[l]);
  }
}
