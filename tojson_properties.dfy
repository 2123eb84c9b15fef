/**
 * What `SourceMap.to_json` writes: sources and names numbered in the order
 * the mappings first use them, the content of each source taken from its
 * first mapping, one `;`-separated segment per `_index` line holding one
 * `,`-separated group per column, and a failure exactly when a listed
 * column has no entry.
 */
module ToJsonProperties {
  import opened Wrappers
  import opened Text
  import opened Base64Vlq
  import opened Base64VlqProperties
  import opened Mappings
  import opened AutoIndexing
  import opened SourceMaps
  import opened FromJsonProperties

  /** The mappings of one line that `to_json` visits, in column order. */
  function LineRecords(entries: map<Position, SourceMapping>, gline: int, cols: seq<int>): seq<SourceMapping>
  {
    if cols == [] then []
    else (if (gline, cols[0]) in entries then [entries[(gline, cols[0])]] else []) + LineRecords(entries, gline, cols[1..])
  }

  /** The mappings `to_json` visits, line by line and column by column. */
  function Records(entries: map<Position, SourceMapping>, lines: seq<seq<int>>, gline: int): seq<SourceMapping>
  {
    if lines == [] then [] else LineRecords(entries, gline, lines[0]) + Records(entries, lines[1..], gline + 1)
  }

  /** The sources of the mappings that have one, in order, repeats included. */
  function SourcesOf(rs: seq<SourceMapping>): seq<string>
  {
    if rs == [] then [] else (if rs[0].source.Some? then [rs[0].source.value] else []) + SourcesOf(rs[1..])
  }

  /** The names `to_json` numbers: those of mappings with a source and a name, in order. */
  function NamesOf(rs: seq<SourceMapping>): seq<string>
  {
    if rs == [] then []
    else (if rs[0].source.Some? && rs[0].name.Some? then [rs[0].name.value] else []) + NamesOf(rs[1..])
  }

  /** The content of the first mapping with source `s`. */
  function FirstContent(rs: seq<SourceMapping>, s: string): Option<string>
  {
    if rs == [] then None
    else if rs[0].source == Some(s) then rs[0].sourceContent
    else FirstContent(rs[1..], s)
  }

  lemma {:induction false} SourcesOfSnoc(rs: seq<SourceMapping>, e: SourceMapping)
    ensures SourcesOf(rs + [e]) == SourcesOf(rs) + (if e.source.Some? then [e.source.value] else [])
    decreases |rs|
  {
    if rs == [] {
      assert [] + [e] == [e];
    } else {
      var head := if rs[0].source.Some? then [rs[0].source.value] else [];
      var tail := if e.source.Some? then [e.source.value] else [];
      assert (rs + [e])[0] == rs[0] && (rs + [e])[1..] == rs[1..] + [e];
      assert SourcesOf(rs + [e]) == head + SourcesOf(rs[1..] + [e]);
      SourcesOfSnoc(rs[1..], e);
      assert head + (SourcesOf(rs[1..]) + tail) == (head + SourcesOf(rs[1..])) + tail;
    }
  }

  lemma {:induction false} NamesOfSnoc(rs: seq<SourceMapping>, e: SourceMapping)
    ensures NamesOf(rs + [e]) == NamesOf(rs) + (if e.source.Some? && e.name.Some? then [e.name.value] else [])
    decreases |rs|
  {
    if rs == [] {
      assert [] + [e] == [e];
    } else {
      var head := if rs[0].source.Some? && rs[0].name.Some? then [rs[0].name.value] else [];
      var tail := if e.source.Some? && e.name.Some? then [e.name.value] else [];
      assert (rs + [e])[0] == rs[0] && (rs + [e])[1..] == rs[1..] + [e];
      assert NamesOf(rs + [e]) == head + NamesOf(rs[1..] + [e]);
      NamesOfSnoc(rs[1..], e);
      assert head + (NamesOf(rs[1..]) + tail) == (head + NamesOf(rs[1..])) + tail;
    }
  }

  /**
   * A mapping added at the end leaves the first content of an earlier source
   * alone and is itself the first mapping of a new source.
   */
  lemma {:induction false} FirstContentSnoc(rs: seq<SourceMapping>, e: SourceMapping, s: string)
    ensures s in SourcesOf(rs) ==> FirstContent(rs + [e], s) == FirstContent(rs, s)
    ensures s !in SourcesOf(rs) && e.source == Some(s) ==> FirstContent(rs + [e], s) == e.sourceContent
    decreases |rs|
  {
    if rs == [] {
      assert [] + [e] == [e];
    } else {
      assert (rs + [e])[1..] == rs[1..] + [e];
      FirstContentSnoc(rs[1..], e, s);
    }
  }

  /** Looking up one more key after a series of lookups. */
  lemma {:induction false} InternAllSnoc(t: Interner, xs: seq<string>, x: string)
    requires t.Valid()
    ensures InternAll(t, xs + [x]) == Intern(InternAll(t, xs), x).0
    decreases |xs|
  {
    if xs == [] {
      assert [] + [x] == [x];
    } else {
      assert (xs + [x])[1..] == xs[1..] + [x];
      InternAllSnoc(Intern(t, xs[0]).0, xs[1..], x);
    }
  }

  /** The content of the first mapping of each of `keys`. */
  function Contents(done: seq<SourceMapping>, keys: seq<string>): (cs: seq<Option<string>>)
    ensures |cs| == |keys|
  {
    seq(|keys|, i requires 0 <= i < |keys| => FirstContent(done, keys[i]))
  }

  /**
   * The emitter after the mappings `done`: its two dictionaries are the
   * lookups of their sources and names in order, and each recorded content
   * is that of the first mapping of its source.
   */
  ghost predicate Follows(em: Emitter, done: seq<SourceMapping>)
  {
    var sources := InternAll(Empty, SourcesOf(done));
    (em.sources, em.names, em.content) == (sources, InternAll(Empty, NamesOf(done)), Contents(done, sources.keys))
  }

  /** What writing one group changes in the emitter's dictionaries and contents. */
  lemma EmitGroupParts(em: Emitter, entry: SourceMapping, gcol: int, col: int)
    requires em.Valid()
    ensures var r := EmitGroup(em, entry, gcol, col).0;
      && r.sources == (if entry.source.Some? then Intern(em.sources, entry.source.value).0 else em.sources)
      && r.names == (if entry.source.Some? && entry.name.Some? then Intern(em.names, entry.name.value).0 else em.names)
      && r.content == (if entry.source.Some? && entry.source.value !in em.sources.keys
                       then em.content + [entry.sourceContent] else em.content)
  {
    if entry.source.Some? {
      var s := entry.source.value;
      var interned := Intern(em.sources, s);
      ValidKeysDistinct(interned.0);
      if s in em.sources.keys {
        assert interned.1 < |em.content|;
      } else {
        assert interned.1 == |em.content|;
      }
    }
  }

  /** The source dictionary after one more mapping. */
  lemma SourcesStep(t: Interner, done: seq<SourceMapping>, e: SourceMapping)
    requires t == InternAll(Empty, SourcesOf(done))
    ensures (if e.source.Some? then Intern(t, e.source.value).0 else t) == InternAll(Empty, SourcesOf(done + [e]))
  {
    SourcesOfSnoc(done, e);
    if e.source.Some? {
      InternAllSnoc(Empty, SourcesOf(done), e.source.value);
    } else {
      assert SourcesOf(done) + [] == SourcesOf(done);
    }
  }

  /** The name dictionary after one more mapping. */
  lemma NamesStep(t: Interner, done: seq<SourceMapping>, e: SourceMapping)
    requires t == InternAll(Empty, NamesOf(done))
    ensures (if e.source.Some? && e.name.Some? then Intern(t, e.name.value).0 else t) == InternAll(Empty, NamesOf(done + [e]))
  {
    NamesOfSnoc(done, e);
    if e.source.Some? && e.name.Some? {
      InternAllSnoc(Empty, NamesOf(done), e.name.value);
    } else {
      assert NamesOf(done) + [] == NamesOf(done);
    }
  }

  /** The keys of a series of lookups from nothing are the keys looked up. */
  lemma InternedKeys(xs: seq<string>)
    ensures forall s :: s in InternAll(Empty, xs).keys <==> s in xs
  {
    InternAllFirstSeen(Empty, xs);
    FirstSeenOrder(xs);
  }

  /** The first contents of sources already looked up survive one more mapping. */
  lemma ContentsKept(done: seq<SourceMapping>, e: SourceMapping, keys: seq<string>)
    requires keys == InternAll(Empty, SourcesOf(done)).keys
    ensures Contents(done + [e], keys) == Contents(done, keys)
  {
    InternedKeys(SourcesOf(done));
    forall i | 0 <= i < |keys| ensures Contents(done + [e], keys)[i] == Contents(done, keys)[i] {
      FirstContentSnoc(done, e, keys[i]);
    }
  }

  /** The first content of a source looked up for the first time is that of the new mapping. */
  lemma ContentAdded(done: seq<SourceMapping>, e: SourceMapping, s: string)
    requires e.source == Some(s) && s !in InternAll(Empty, SourcesOf(done)).keys
    ensures FirstContent(done + [e], s) == e.sourceContent
  {
    InternedKeys(SourcesOf(done));
    FirstContentSnoc(done, e, s);
  }

  lemma ContentsSnoc(rs: seq<SourceMapping>, keys: seq<string>, s: string)
    ensures Contents(rs, keys + [s]) == Contents(rs, keys) + [FirstContent(rs, s)]
  {
    assert forall i :: 0 <= i < |keys| ==> (keys + [s])[i] == keys[i];
  }

  /** The contents after one more mapping: a new source brings its content, the others keep theirs. */
  lemma ContentStep(t: Interner, done: seq<SourceMapping>, e: SourceMapping)
    requires t == InternAll(Empty, SourcesOf(done))
    ensures var t' := if e.source.Some? then Intern(t, e.source.value).0 else t;
      var content := Contents(done, t.keys);
      (if e.source.Some? && e.source.value !in t.keys then content + [e.sourceContent] else content)
      == Contents(done + [e], t'.keys)
  {
    ContentsKept(done, e, t.keys);
    if e.source.Some? && e.source.value !in t.keys {
      var s := e.source.value;
      ContentAdded(done, e, s);
      ContentsSnoc(done + [e], t.keys, s);
    }
  }

  /**
   * What writing a mapping does to the emitter's totals, dictionaries and
   * contents; the columns only change the integers written.
   */
  function Absorb(em: Emitter, e: SourceMapping): (r: Emitter)
    requires em.Valid()
    ensures r.Valid()
  {
    EmitGroup(em, e, 0, 0).0
  }

  lemma AbsorbColumnFree(em: Emitter, e: SourceMapping, gcol: int, col: int)
    requires em.Valid()
    ensures EmitGroup(em, e, gcol, col).0 == Absorb(em, e)
  {
  }

  /** Writing the mappings `rs` one after another. */
  function AbsorbAll(em: Emitter, rs: seq<SourceMapping>): (r: Emitter)
    requires em.Valid()
    ensures r.Valid()
    decreases |rs|
  {
    if rs == [] then em else AbsorbAll(Absorb(em, rs[0]), rs[1..])
  }

  lemma {:induction false} AbsorbAllConcat(em: Emitter, a: seq<SourceMapping>, b: seq<SourceMapping>)
    requires em.Valid()
    ensures AbsorbAll(em, a + b) == AbsorbAll(AbsorbAll(em, a), b)
    decreases |a|
  {
    if a == [] {
      assert a + b == b;
    } else {
      assert (a + b)[1..] == a[1..] + b;
      AbsorbAllConcat(Absorb(em, a[0]), a[1..], b);
    }
  }

  /** Writing one more mapping after a series. */
  lemma AbsorbSnoc(em: Emitter, rs: seq<SourceMapping>, e: SourceMapping)
    requires em.Valid()
    ensures AbsorbAll(em, rs + [e]) == Absorb(AbsorbAll(em, rs), e)
  {
    AbsorbAllConcat(em, rs, [e]);
    assert [e][1..] == [];
  }

  /** The emitter after one line is that of writing the line's mappings in column order. */
  lemma {:induction false} EmitLineAbsorbs(em: Emitter, entries: map<Position, SourceMapping>,
                                           gline: int, cols: seq<int>, gcol: int, mapping: seq<string>)
    requires em.Valid()
    requires EmitLine(em, entries, gline, cols, gcol, mapping).Success?
    ensures EmitLine(em, entries, gline, cols, gcol, mapping).value.0 == AbsorbAll(em, LineRecords(entries, gline, cols))
    decreases |cols|
  {
    if cols != [] {
      var entry := entries[(gline, cols[0])];
      var step := EmitGroup(em, entry, gcol, cols[0]);
      AbsorbColumnFree(em, entry, gcol, cols[0]);
      EmitLineAbsorbs(step.0, entries, gline, cols[1..], cols[0], mapping + [Encode(step.1)]);
      assert LineRecords(entries, gline, cols) == [entry] + LineRecords(entries, gline, cols[1..]);
    }
  }

  /** The emitter after all lines is that of writing every visited mapping in order. */
  lemma {:induction false} EmitLinesAbsorbs(em: Emitter, entries: map<Position, SourceMapping>,
                                            lines: seq<seq<int>>, gline: int, mappings: seq<string>)
    requires em.Valid()
    requires EmitLines(em, entries, lines, gline, mappings).Success?
    ensures EmitLines(em, entries, lines, gline, mappings).value.0 == AbsorbAll(em, Records(entries, lines, gline))
    decreases |lines|
  {
    if lines != [] {
      var line := EmitLine(em, entries, gline, lines[0], 0, []).value;
      EmitLineAbsorbs(em, entries, gline, lines[0], 0, []);
      EmitLinesAbsorbs(line.0, entries, lines[1..], gline + 1, mappings + [Join(line.1, ',')]);
      AbsorbAllConcat(em, LineRecords(entries, gline, lines[0]), Records(entries, lines[1..], gline + 1));
    }
  }

  /** Writing one mapping looks up its source and name and records the content of a new source. */
  lemma AbsorbFollows(em: Emitter, done: seq<SourceMapping>, e: SourceMapping)
    requires Follows(em, done)
    ensures Follows(Absorb(em, e), done + [e])
  {
    EmitGroupParts(em, e, 0, 0);
    SourcesStep(em.sources, done, e);
    NamesStep(em.names, done, e);
    ContentStep(em.sources, done, e);
  }

  /** From a fresh emitter, writing the mappings `rs` leaves the emitter that follows `rs`. */
  lemma {:induction false} FreshFollows(rs: seq<SourceMapping>)
    ensures Follows(AbsorbAll(Fresh, rs), rs)
    decreases |rs|
  {
    if rs == [] {
      assert Follows(Fresh, []);
    } else {
      var init, last := rs[..|rs| - 1], rs[|rs| - 1];
      assert init + [last] == rs;
      FreshFollows(init);
      AbsorbFollows(AbsorbAll(Fresh, init), init, last);
      AbsorbSnoc(Fresh, init, last);
    }
  }

  /**
   * `sources` and `names` are what a series of `autoindex` lookups of the
   * mappings' sources and names, in the order `to_json` visits them, leaves:
   * first-seen order (see `FirstSeenOrder`). `sourcesContent[i]` is the content
   * of the first mapping of `sources[i]`.
   */
  lemma ToJsonSources(m: SourceMap)
    requires ToJsonSpec(m).Success?
    ensures var j := ToJsonSpec(m).value;
      var rs := Records(m.entries, m.index, 0);
      j.sources == FirstSeen([], SourcesOf(rs))
      && j.names == FirstSeen([], NamesOf(rs))
      && j.sourcesContent == Contents(rs, j.sources)
  {
    var rs := Records(m.entries, m.index, 0);
    EmitLinesAbsorbs(Fresh, m.entries, m.index, 0, []);
    FreshFollows(rs);
    InternAllFirstSeen(Empty, SourcesOf(rs));
    InternAllFirstSeen(Empty, NamesOf(rs));
  }
}
