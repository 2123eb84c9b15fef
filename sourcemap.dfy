/**
 * `SourceMap`: the `entries` dictionary from generated positions to
 * mappings, with `_index`, the columns of each generated line in the order
 * they were read; its conversion from and to the JSON source map object
 * (revision 3 of the format) and its position lookup.
 */
module SourceMaps {
  import opened Wrappers
  import opened Text
  import opened Base64Vlq
  import opened Mappings
  import opened AutoIndexing

  /**
   * The parsed JSON object. A missing `file` or `sourceRoot` is `None`, and a
   * missing `sourcesContent` is the empty list.
   */
  datatype JsonSourceMap = JsonSourceMap(
    version: int,
    file: Option<string>,
    sourceRoot: Option<string>,
    sources: seq<string>,
    sourcesContent: seq<Option<string>>,
    names: seq<string>,
    mappings: string)

  /** A position key of `entries`: generated line and column. */
  type Position = (int, int)

  datatype SourceMap = SourceMap(
    file: Option<string>,
    sourceRoot: Option<string>,
    entries: map<Position, SourceMapping>,
    index: seq<seq<int>>)

  /**
   * The dictionary-plus-index invariant: a position has an entry exactly when
   * its column is listed on its line of `_index`, and the entry there
   * records that position.
   */
  ghost predicate Indexed(m: SourceMap)
  {
    (forall key: Position :: key in m.entries <==> 0 <= key.0 < |m.index| && key.1 in m.index[key.0])
    && (forall key: Position :: key in m.entries ==> m.entries[key].line == key.0 && m.entries[key].column == key.1)
  }

  /** Why `from_json` or `to_json` raises. */
  datatype MapError =
    | UnsupportedVersion      // `ValueError`: the version is not 3
    | InvalidVlq              // a group holds a character outside the Base64 alphabet
    | EmptyGroup              // `ValueError`: a group decodes to no integer at all
    | ContentIndexOutOfRange  // `IndexError` at `contents[spos]`
    | SourceIndexOutOfRange   // `IndexError` at `sources[spos]`
    | MissingEntry            // `KeyError`: an `_index` column without an entry

  /** The running totals of `from_json`: source index, source line, source column and name index. */
  datatype Totals = Totals(spos: int, sline: int, scol: int, npos: int)

  /** What `from_json` has built so far; the last line of `index` is the one being read. */
  datatype ParseState = ParseState(totals: Totals, entries: map<Position, SourceMapping>, index: seq<seq<int>>)

  const Start: ParseState := ParseState(Totals(0, 0, 0, 0), map[], [])

  /** `contents[spos] if len(contents) > spos else None`. */
  function ContentAt(contents: seq<Option<string>>, spos: int): Result<Option<string>, MapError>
  {
    if |contents| > spos then
      match PyIndex(contents, spos)
      case None => Failure(ContentIndexOutOfRange)
      case Some(c) => Success(c)
    else Success(None)
  }

  /**
   * The mapping one group gives at `(gline, gcol)` and the totals after it;
   * `ref` is the group without its column delta. Three more values move the
   * source totals and make a mapping with a source; a fifth moves the name
   * index, and the name itself is never stored.
   */
  function GroupRecord(smap: JsonSourceMap, t: Totals, gline: int, gcol: int, ref: seq<int>)
    : Result<(Totals, SourceMapping), MapError>
  {
    if |ref| < 3 then Success((t, Unmapped(gline, gcol)))
    else
      var spos, sline, scol := t.spos + ref[0], t.sline + ref[1], t.scol + ref[2];
      match ContentAt(smap.sourcesContent, spos)
      case Failure(e) => Failure(e)
      case Success(content) =>
        match PyIndex(smap.sources, spos)
        case None => Failure(SourceIndexOutOfRange)
        case Some(source) =>
          var npos := if |ref| >= 4 then t.npos + ref[3] else t.npos;
          Success((Totals(spos, sline, scol, npos),
                   MappingRecord(gline, gcol, Some(source), Some(sline), Some(scol), None, content)))
  }

  /**
   * One group of the current line: decoded, its column delta added to `gcol`,
   * and turned into a mapping. A group must hold at least the column delta.
   */
  function Group(smap: JsonSourceMap, group: string, t: Totals, gline: int, gcol: int)
    : Result<(Totals, int, SourceMapping), MapError>
  {
    match Decode(group)
    case Failure(_) => Failure(InvalidVlq)
    case Success(values) =>
      if values == [] then Failure(EmptyGroup)
      else
        var gcol' := gcol + values[0];
        match GroupRecord(smap, t, gline, gcol', values[1..])
        case Failure(e) => Failure(e)
        case Success(step) => Success((step.0, gcol', step.1))
  }

  /** The inner loop of `from_json` over the `,`-separated groups of the current line. */
  function ParseGroups(smap: JsonSourceMap, groups: seq<string>, st: ParseState, gcol: int): (r: Result<ParseState, MapError>)
    requires |st.index| >= 1
    ensures r.Success? ==> |r.value.index| == |st.index|
    decreases |groups|
  {
    if groups == [] then Success(st)
    else
      var gline := |st.index| - 1;
      match Group(smap, groups[0], st.totals, gline, gcol)
      case Failure(e) => Failure(e)
      case Success(g) =>
        ParseGroups(smap, groups[1..],
                    ParseState(g.0, st.entries[(gline, g.1) := g.2], st.index[gline := st.index[gline] + [g.1]]), g.1)
  }

  /** The outer loop of `from_json` over the `;`-separated lines, each opening a new `_index` line. */
  function ParseLines(smap: JsonSourceMap, lines: seq<string>, st: ParseState): (r: Result<ParseState, MapError>)
    ensures r.Success? ==> |r.value.index| == |st.index| + |lines|
    decreases |lines|
  {
    if lines == [] then Success(st)
    else
      var st' := st.(index := st.index + [[]]);
      if lines[0] == "" then ParseLines(smap, lines[1..], st')
      else match ParseGroups(smap, Split(lines[0], ','), st', 0)
        case Failure(e) => Failure(e)
        case Success(st'') => ParseLines(smap, lines[1..], st'')
  }

  /** `SourceMap.from_json`. Only version 3 is read, and it is checked before anything else. */
  function FromJsonSpec(smap: JsonSourceMap): (r: Result<SourceMap, MapError>)
    ensures smap.version != 3 ==> r == Failure(UnsupportedVersion)
    ensures r.Success? ==> smap.version == 3 && r.value.file == smap.file && r.value.sourceRoot == smap.sourceRoot
  {
    if smap.version != 3 then Failure(UnsupportedVersion)
    else match ParseLines(smap, Split(smap.mappings, ';'), Start)
      case Failure(e) => Failure(e)
      case Success(st) => Success(SourceMap(smap.file, smap.sourceRoot, st.entries, st.index))
  }

  /** One turn of the outer loop of `from_json`. */
  lemma ParseLinesStep(smap: JsonSourceMap, lines: seq<string>, i: nat, st: ParseState)
    requires i < |lines|
    ensures ParseLines(smap, lines[i..], st)
         == var st' := st.(index := st.index + [[]]);
            if lines[i] == "" then ParseLines(smap, lines[i + 1..], st')
            else match ParseGroups(smap, Split(lines[i], ','), st', 0)
              case Failure(e) => Failure(e)
              case Success(st'') => ParseLines(smap, lines[i + 1..], st'')
  {
    assert lines[i..][1..] == lines[i + 1..];
  }

  /** One turn of the inner loop of `from_json`. */
  lemma ParseGroupsStep(smap: JsonSourceMap, groups: seq<string>, k: nat, st: ParseState, gcol: int)
    requires k < |groups| && |st.index| >= 1
    ensures ParseGroups(smap, groups[k..], st, gcol)
         == var gline := |st.index| - 1;
            match Group(smap, groups[k], st.totals, gline, gcol)
            case Failure(e) => Failure(e)
            case Success(g) =>
              ParseGroups(smap, groups[k + 1..],
                          ParseState(g.0, st.entries[(gline, g.1) := g.2], st.index[gline := st.index[gline] + [g.1]]), g.1)
  {
    assert groups[k..][1..] == groups[k + 1..];
  }

  /**
   * The body of the inner loop of `from_json` for one group: decode it with
   * the reverse table, unpack the column delta, and build the mapping from
   * the moved totals.
   */
  method ReadGroup(table: array<Option<Sextet>>, smap: JsonSourceMap, vlq: string, t: Totals, gline: int, gcol: int)
    returns (r: Result<(Totals, int, SourceMapping), MapError>)
    requires IsReverseTable(table)
    ensures r == Group(smap, vlq, t, gline, gcol)
  {
    var values := DecodeVlq(table, vlq);
    if values.Failure? {
      return Failure(InvalidVlq);
    }
    if |values.value| == 0 {
      return Failure(EmptyGroup);
    }
    var gcd, ref := values.value[0], values.value[1..];
    var col := gcol + gcd;
    var spos, sline, scol, npos := t.spos, t.sline, t.scol, t.npos;
    if |ref| < 3 {
      return Success((t, col, Unmapped(gline, col)));
    }
    spos, sline, scol := spos + ref[0], sline + ref[1], scol + ref[2];
    var scont := ContentAt(smap.sourcesContent, spos);
    if scont.Failure? {
      return Failure(scont.error);
    }
    var source := PyIndex(smap.sources, spos);
    if source.None? {
      return Failure(SourceIndexOutOfRange);
    }
    if |ref| >= 4 {
      npos := npos + ref[3];
    }
    var record := MappingRecord(gline, col, Some(source.value), Some(sline), Some(scol), None, scont.value);
    r := Success((Totals(spos, sline, scol, npos), col, record));
  }

  /**
   * `SourceMap.from_json` as the Python code runs it: running totals in local
   * variables, the entries and the index filled in two nested loops, and each
   * group decoded with the reverse table.
   */
  method FromJson(table: array<Option<Sextet>>, smap: JsonSourceMap) returns (r: Result<SourceMap, MapError>)
    requires IsReverseTable(table)
    ensures r == FromJsonSpec(smap)
  {
    if smap.version != 3 {
      return Failure(UnsupportedVersion);
    }
    var entries: map<Position, SourceMapping>, index: seq<seq<int>> := map[], [];
    var spos, npos, sline, scol := 0, 0, 0, 0;
    var lines := Split(smap.mappings, ';');
    ghost var goal := ParseLines(smap, lines, Start);
    assert FromJsonSpec(smap) == match goal
      case Failure(e) => Failure(e)
      case Success(st) => Success(SourceMap(smap.file, smap.sourceRoot, st.entries, st.index));
    assert lines[0..] == lines;
    for gline := 0 to |lines|
      invariant |index| == gline
      invariant ParseLines(smap, lines[gline..], ParseState(Totals(spos, sline, scol, npos), entries, index)) == goal
    {
      ParseLinesStep(smap, lines, gline, ParseState(Totals(spos, sline, scol, npos), entries, index));
      var vlqs := lines[gline];
      index := index + [[]];
      if vlqs == [] {
        continue;
      }
      var gcol := 0;
      var groups := Split(vlqs, ',');
      ghost var lineGoal := ParseGroups(smap, groups, ParseState(Totals(spos, sline, scol, npos), entries, index), 0);
      assert groups[0..] == groups;
      for k := 0 to |groups|
        invariant |index| == gline + 1
        invariant ParseGroups(smap, groups[k..], ParseState(Totals(spos, sline, scol, npos), entries, index), gcol) == lineGoal
      {
        ParseGroupsStep(smap, groups, k, ParseState(Totals(spos, sline, scol, npos), entries, index), gcol);
        var g := ReadGroup(table, smap, groups[k], Totals(spos, sline, scol, npos), gline, gcol);
        if g.Failure? {
          return Failure(g.error);
        }
        var record;
        spos, sline, scol, npos := g.value.0.spos, g.value.0.sline, g.value.0.scol, g.value.0.npos;
        gcol, record := g.value.1, g.value.2;
        entries := entries[(gline, gcol) := record];
        index := index[gline := index[gline] + [gcol]];
      }
      assert groups[|groups|..] == [];
    }
    assert lines[|lines|..] == [];
    r := Success(SourceMap(smap.file, smap.sourceRoot, entries, index));
  }

  /**
   * The running state of `to_json`: the totals of the previous group with a
   * source, the two `autoindex` dictionaries and the `sourcesContent` built so far.
   */
  datatype Emitter = Emitter(spos: int, sline: int, scol: int, npos: int,
                             sources: Interner, names: Interner, content: seq<Option<string>>)
  {
    /** Both dictionaries are consistent and there is one content per source number given. */
    predicate Valid()
    {
      sources.Valid() && names.Valid() && |content| == |sources.keys|
    }
  }

  const Fresh: Emitter := Emitter(0, 0, 0, 0, Empty, Empty, [])

  /**
   * The integers one mapping is written as: the column delta, then for a
   * mapping with a source the deltas of source number, line and column, then
   * for a mapping with a name the delta of the name number. A content is
   * recorded the first time a source number comes up.
   */
  function EmitGroup(em: Emitter, entry: SourceMapping, gcol: int, col: int): (r: (Emitter, seq<int>))
    requires em.Valid()
    ensures r.0.Valid()
    ensures |r.1| == if entry.source.None? then 1 else if entry.name.None? then 4 else 5
    ensures r.1[0] == col - gcol
  {
    var ds := [col - gcol];
    if entry.source.None? then (em, ds)
    else
      var interned := Intern(em.sources, entry.source.value);
      var ds := ds + [interned.1 - em.spos, entry.sourceLine.value - em.sline, entry.sourceColumn.value - em.scol];
      var spos, sline, scol := em.spos + ds[1], em.sline + ds[2], em.scol + ds[3];
      var content := if spos == |em.content| then em.content + [entry.sourceContent] else em.content;
      if entry.name.None? then (Emitter(spos, sline, scol, em.npos, interned.0, em.names, content), ds)
      else
        var named := Intern(em.names, entry.name.value);
        var ds := ds + [named.1 - em.npos];
        (Emitter(spos, sline, scol, em.npos + ds[4], interned.0, named.0, content), ds)
  }

  /** The inner loop of `to_json` over the columns of line `gline`, collecting the encoded groups. */
  function EmitLine(em: Emitter, entries: map<Position, SourceMapping>, gline: int, cols: seq<int>, gcol: int,
                    mapping: seq<string>): (r: Result<(Emitter, seq<string>), MapError>)
    requires em.Valid()
    ensures r.Success? ==> r.value.0.Valid() && |r.value.1| == |mapping| + |cols|
    ensures r.Failure? ==> r.error == MissingEntry
    decreases |cols|
  {
    if cols == [] then Success((em, mapping))
    else if (gline, cols[0]) !in entries then Failure(MissingEntry)
    else
      var step := EmitGroup(em, entries[(gline, cols[0])], gcol, cols[0]);
      EmitLine(step.0, entries, gline, cols[1..], cols[0], mapping + [Encode(step.1)])
  }

  /** The outer loop of `to_json` over the lines of `_index`, one `,`-joined segment each. */
  function EmitLines(em: Emitter, entries: map<Position, SourceMapping>, lines: seq<seq<int>>, gline: int,
                     mappings: seq<string>): (r: Result<(Emitter, seq<string>), MapError>)
    requires em.Valid()
    ensures r.Success? ==> r.value.0.Valid() && |r.value.1| == |mappings| + |lines|
    ensures r.Failure? ==> r.error == MissingEntry
    decreases |lines|
  {
    if lines == [] then Success((em, mappings))
    else match EmitLine(em, entries, gline, lines[0], 0, [])
      case Failure(e) => Failure(e)
      case Success(line) => EmitLines(line.0, entries, lines[1..], gline + 1, mappings + [Join(line.1, ',')])
  }

  /** `SourceMap.to_json`. */
  function ToJsonSpec(m: SourceMap): (r: Result<JsonSourceMap, MapError>)
    ensures r.Success? ==> r.value.version == 3 && r.value.file == m.file && r.value.sourceRoot == m.sourceRoot
    ensures r.Success? ==> |r.value.sourcesContent| == |r.value.sources|
    ensures r.Failure? ==> r.error == MissingEntry
  {
    match EmitLines(Fresh, m.entries, m.index, 0, [])
    case Failure(e) => Failure(e)
    case Success(out) =>
      Success(JsonSourceMap(3, m.file, m.sourceRoot, out.0.sources.keys, out.0.content, out.0.names.keys,
                            Join(out.1, ';')))
  }

  /** `SourceMap.to_json` as the Python code runs it, with two `autoindex` objects and nested loops. */
  method ToJson(m: SourceMap) returns (r: Result<JsonSourceMap, MapError>)
    ensures r == ToJsonSpec(m)
  {
    var content: seq<Option<string>>, mappings: seq<string> := [], [];
    var sources := new AutoIndex();
    var names := new AutoIndex();
    var entries := m.entries;
    var spos, sline, scol, npos := 0, 0, 0, 0;
    ghost var goal := EmitLines(Fresh, entries, m.index, 0, []);
    assert m.index[0..] == m.index;
    for gline := 0 to |m.index|
      invariant sources.Valid() && names.Valid() && sources != names
      invariant |content| == |sources.keys|
      invariant EmitLines(Emitter(spos, sline, scol, npos, sources.Model(), names.Model(), content),
                          entries, m.index[gline..], gline, mappings) == goal
    {
      var cols := m.index[gline];
      ghost var em0 := Emitter(spos, sline, scol, npos, sources.Model(), names.Model(), content);
      EmitLinesStep(em0, entries, m.index, gline, mappings);
      ghost var lineGoal := EmitLine(em0, entries, gline, cols, 0, []);
      var gcol := 0;
      var mapping: seq<string> := [];
      assert cols[0..] == cols;
      for k := 0 to |cols|
        invariant sources.Valid() && names.Valid() && sources != names
        invariant |content| == |sources.keys|
        invariant EmitLine(Emitter(spos, sline, scol, npos, sources.Model(), names.Model(), content),
                           entries, gline, cols[k..], gcol, mapping) == lineGoal
      {
        ghost var em := Emitter(spos, sline, scol, npos, sources.Model(), names.Model(), content);
        EmitLineStep(em, entries, gline, cols, k, gcol, mapping);
        var col := cols[k];
        if (gline, col) !in entries {
          return Failure(MissingEntry);
        }
        var entry := entries[(gline, col)];
        var ds;
        spos, sline, scol, npos, content, ds := WriteGroup(sources, names, spos, sline, scol, npos, content, entry, gcol, col);
        gcol := col;
        var group := EncodeVlq(ds);
        mapping := mapping + [group];
      }
      assert cols[|cols|..] == [];
      mappings := mappings + [Join(mapping, ',')];
    }
    assert m.index[|m.index|..] == [];
    var sourceKeys := sources.SortedKeys();
    var nameKeys := names.SortedKeys();
    r := Success(JsonSourceMap(3, m.file, m.sourceRoot, sourceKeys, content, nameKeys, Join(mappings, ';')));
  }

  /**
   * The body of the inner loop of `to_json` for one column: the deltas of the
   * mapping against the running totals, the numbers of its source and name
   * from the two `autoindex` objects, and the content of a new source.
   */
  method WriteGroup(sources: AutoIndex, names: AutoIndex, spos: int, sline: int, scol: int, npos: int,
                    content: seq<Option<string>>, entry: SourceMapping, gcol: int, col: int)
    returns (spos': int, sline': int, scol': int, npos': int, content': seq<Option<string>>, ds: seq<int>)
    requires sources.Valid() && names.Valid() && sources != names && |content| == |sources.keys|
    modifies sources, names
    ensures sources.Valid() && names.Valid() && |content'| == |sources.keys|
    ensures (Emitter(spos', sline', scol', npos', sources.Model(), names.Model(), content'), ds)
         == EmitGroup(Emitter(spos, sline, scol, npos, old(sources.Model()), old(names.Model()), content), entry, gcol, col)
  {
    spos', sline', scol', npos', content' := spos, sline, scol, npos, content;
    ds := [col - gcol];
    if entry.source.Some? {
      ghost var em := Emitter(spos, sline, scol, npos, sources.Model(), names.Model(), content);
      var id := sources.Get(entry.source.value);
      var dpos, dline, dcol := id - spos', entry.sourceLine.value - sline', entry.sourceColumn.value - scol';
      ds := ds + [dpos, dline, dcol];
      spos', sline', scol' := spos' + dpos, sline' + dline, scol' + dcol;
      if spos' == |content'| {
        content' := content' + [entry.sourceContent];
      }
      if entry.name.Some? {
        var nid := names.Get(entry.name.value);
        var dname := nid - npos';
        ds := ds + [dname];
        npos' := npos' + dname;
        NamedGroup(em, entry, gcol, col, sources.Model(), id, names.Model(), nid);
      } else {
        UnnamedGroup(em, entry, gcol, col, sources.Model(), id);
      }
    }
  }

  /** The group of a mapping with a source and no name, given the number `id` its source gets. */
  lemma UnnamedGroup(em: Emitter, entry: SourceMapping, gcol: int, col: int, t: Interner, id: nat)
    requires em.Valid() && entry.source.Some? && entry.name.None? && Intern(em.sources, entry.source.value) == (t, id)
    ensures EmitGroup(em, entry, gcol, col)
         == (Emitter(id, entry.sourceLine.value, entry.sourceColumn.value, em.npos, t, em.names,
                     if id == |em.content| then em.content + [entry.sourceContent] else em.content),
             [col - gcol, id - em.spos, entry.sourceLine.value - em.sline, entry.sourceColumn.value - em.scol])
  {
    var ds := [col - gcol, id - em.spos, entry.sourceLine.value - em.sline, entry.sourceColumn.value - em.scol];
    assert [col - gcol] + ds[1..] == ds;
  }

  /**
   * The group of a mapping with a source and a name, given the number `id`
   * its source gets, and the names `u` and the number `n` after its name is looked up.
   */
  lemma NamedGroup(em: Emitter, entry: SourceMapping, gcol: int, col: int, t: Interner, id: nat, u: Interner, n: nat)
    requires em.Valid() && entry.source.Some? && entry.name.Some?
    requires Intern(em.sources, entry.source.value) == (t, id) && Intern(em.names, entry.name.value) == (u, n)
    ensures EmitGroup(em, entry, gcol, col)
         == (Emitter(id, entry.sourceLine.value, entry.sourceColumn.value, n, t, u,
                     if id == |em.content| then em.content + [entry.sourceContent] else em.content),
             [col - gcol, id - em.spos, entry.sourceLine.value - em.sline, entry.sourceColumn.value - em.scol, n - em.npos])
  {
    NamedGroupDeltas(em, entry, gcol, col, id, n);
    NamedGroupState(em, entry, gcol, col, t, id, u, n);
  }

  lemma NamedGroupDeltas(em: Emitter, entry: SourceMapping, gcol: int, col: int, id: nat, n: nat)
    requires em.Valid() && entry.source.Some? && entry.name.Some?
    requires Intern(em.sources, entry.source.value).1 == id && Intern(em.names, entry.name.value).1 == n
    ensures EmitGroup(em, entry, gcol, col).1
         == [col - gcol, id - em.spos, entry.sourceLine.value - em.sline, entry.sourceColumn.value - em.scol, n - em.npos]
  {
  }

  lemma NamedGroupState(em: Emitter, entry: SourceMapping, gcol: int, col: int, t: Interner, id: nat, u: Interner, n: nat)
    requires em.Valid() && entry.source.Some? && entry.name.Some?
    requires Intern(em.sources, entry.source.value) == (t, id) && Intern(em.names, entry.name.value) == (u, n)
    ensures EmitGroup(em, entry, gcol, col).0
         == Emitter(id, entry.sourceLine.value, entry.sourceColumn.value, n, t, u,
                    if id == |em.content| then em.content + [entry.sourceContent] else em.content)
  {
  }

  /** One turn of the outer loop of `to_json`. */
  lemma EmitLinesStep(em: Emitter, entries: map<Position, SourceMapping>, lines: seq<seq<int>>, i: nat,
                      mappings: seq<string>)
    requires em.Valid() && i < |lines|
    ensures EmitLines(em, entries, lines[i..], i, mappings)
         == match EmitLine(em, entries, i, lines[i], 0, [])
            case Failure(e) => Failure(e)
            case Success(line) => EmitLines(line.0, entries, lines[i + 1..], i + 1, mappings + [Join(line.1, ',')])
  {
    assert lines[i..][1..] == lines[i + 1..];
  }

  /** One turn of the inner loop of `to_json`. */
  lemma EmitLineStep(em: Emitter, entries: map<Position, SourceMapping>, gline: int, cols: seq<int>, k: nat,
                     gcol: int, mapping: seq<string>)
    requires em.Valid() && k < |cols|
    ensures EmitLine(em, entries, gline, cols[k..], gcol, mapping)
         == if (gline, cols[k]) !in entries then Failure(MissingEntry)
            else
              var step := EmitGroup(em, entries[(gline, cols[k])], gcol, cols[k]);
              EmitLine(step.0, entries, gline, cols[k + 1..], cols[k], mapping + [Encode(step.1)])
  {
    assert cols[k..][1..] == cols[k + 1..];
  }

  /** `m[l]` or `m[l, c]`: a bare line number stands for column 0. */
  datatype Index = LineIndex(line: int) | PairIndex(line: int, column: int)

  /** Why `__getitem__` raises. */
  datatype LookupError =
    | NoSuchLine   // `IndexError` at `_index[l]`
    | EmptyLine    // `IndexError(idx)`: the line has no mapped columns
    | NoSuchEntry  // `KeyError` at the final `entries[l, col]`

  /**
   * `bisect.bisect_right(a, x, lo, hi)` as CPython computes it: halve
   * `lo .. hi`, going left when `x < a[mid]`.
   */
  function BisectRight(a: seq<int>, x: int, lo: nat, hi: nat): (i: nat)
    requires lo <= hi <= |a|
    ensures lo <= i <= hi
    decreases hi - lo
  {
    if lo < hi then
      var mid := (lo + hi) / 2;
      if x < a[mid] then BisectRight(a, x, lo, mid) else BisectRight(a, x, mid + 1, hi)
    else lo
  }

  /** The generated position an index stands for. */
  function Target(idx: Index): Position
  {
    match idx
    case LineIndex(l) => (l, 0)
    case PairIndex(l, c) => (l, c)
  }

  /**
   * `SourceMap.__getitem__`: the entry at the position itself, otherwise the
   * entry at the column `cols[cidx and cidx - 1]` of that line, where `cidx`
   * is the insertion point of `c` after equal columns.
   */
  function GetItem(m: SourceMap, idx: Index): Result<SourceMapping, LookupError>
  {
    var (l, c) := Target(idx);
    if (l, c) in m.entries then Success(m.entries[(l, c)])
    else match PyIndex(m.index, l)
      case None => Failure(NoSuchLine)
      case Some(cols) =>
        if cols == [] then Failure(EmptyLine)
        else
          var cidx := BisectRight(cols, c, 0, |cols|);
          var col := cols[if cidx == 0 then 0 else cidx - 1];
          if (l, col) in m.entries then Success(m.entries[(l, col)]) else Failure(NoSuchEntry)
  }
}
