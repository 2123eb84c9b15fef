/**
 * `SourceMapping`, one generated position and the source position it comes
 * from, with the co-presence rules its constructor enforces and its
 * `content_line` property.
 */
module Mappings {
  import opened Wrappers
  import opened Text

  /** The fields of a `SourceMapping`, before validation. */
  datatype MappingRecord = MappingRecord(
    line: int,
    column: int,
    source: Option<string>,
    sourceLine: Option<int>,
    sourceColumn: Option<int>,
    name: Option<string>,
    sourceContent: Option<string>)
  {
    /**
     * What `__post_init__` accepts: a source comes with its line and column,
     * and a name comes with a source. Nothing else is checked.
     */
    predicate Valid()
    {
      !(source.Some? && (sourceLine.None? || sourceColumn.None?))
      && !(name.Some? && source.None?)
    }
  }

  /** A `SourceMapping` that construction let through. */
  type SourceMapping = r: MappingRecord | r.Valid()
    witness MappingRecord(0, 0, None, None, None, None, None)

  /** The `TypeError`s of `__post_init__`, raised in this order. */
  datatype RecordError =
    | MissingSourcePosition  // a source without its line or column
    | NameWithoutSource      // a name without a source

  /** A mapping at a generated position with no source information. */
  function Unmapped(line: int, column: int): SourceMapping
  {
    MappingRecord(line, column, None, None, None, None, None)
  }

  /** `SourceMapping(...)`: the fields as given, or the first rule they break. */
  function NewSourceMapping(line: int, column: int, source: Option<string>, sourceLine: Option<int>,
                            sourceColumn: Option<int>, name: Option<string>, sourceContent: Option<string>)
    : (r: Result<SourceMapping, RecordError>)
    ensures r.Success? <==> MappingRecord(line, column, source, sourceLine, sourceColumn, name, sourceContent).Valid()
    ensures r.Success? ==> r.value == MappingRecord(line, column, source, sourceLine, sourceColumn, name, sourceContent)
    ensures r == Failure(MissingSourcePosition) <==> source.Some? && (sourceLine.None? || sourceColumn.None?)
    ensures r == Failure(NameWithoutSource) <==>
      name.Some? && source.None?
  {
    if source.Some? && (sourceLine.None? || sourceColumn.None?) then Failure(MissingSourcePosition)
    else if name.Some? && source.None? then Failure(NameWithoutSource)
    else Success(MappingRecord(line, column, source, sourceLine, sourceColumn, name, sourceContent))
  }

  /**
   * Only the two rules are checked: a source line or column without a
   * source, or a content without anything else, is accepted.
   */
  lemma OnlyTwoRules(line: int, column: int, sourceLine: Option<int>, sourceColumn: Option<int>, sourceContent: Option<string>)
    ensures NewSourceMapping(line, column, None, sourceLine, sourceColumn, None, sourceContent).Success?
    ensures NewSourceMapping(line, column, None, Some(1), None, Some("x"), None) == Failure(NameWithoutSource)
    ensures NewSourceMapping(line, column, Some("a.css"), None, None, Some("x"), None) == Failure(MissingSourcePosition)
  {
  }

  /** The failure of `content_line` as written: `None.splitlines()` raises `AttributeError`, which is not caught. */
  datatype ContentLineError = NoContentAttribute

  /**
   * `content_line` as written: the lookup of the line happens but its value is
   * discarded (there is no `return` after it), so every call that does not
   * raise yields `None`. A missing `source_line` (`TypeError`) and a line out
   * of range (`IndexError`) are caught; a missing `source_content` is not.
   */
  function ContentLine(r: SourceMapping): (res: Result<Option<string>, ContentLineError>)
  {
    match r.sourceContent
    case None => Failure(NoContentAttribute)
    case Some(content) =>
      match r.sourceLine
      case None => Success(None)
      case Some(l) =>
        match PyIndex(SplitLines(content), l)
        case None => Success(None)
        case Some(_) => Success(None)
  }

  /** As written, `content_line` yields `None` whenever it returns at all. */
  lemma ContentLineAlwaysNone(r: SourceMapping)
    ensures ContentLine(r).Success? ==> ContentLine(r).value == None
    ensures ContentLine(r).Failure? <==> r.sourceContent.None?
  {
  }

  /** The mapping at line 0 whose source content is "a", "b" on two lines, pointing at line 1. */
  function TwoLineMapping(): SourceMapping
  {
    MappingRecord(0, 0, Some("a.css"), Some(1), Some(0), None, Some("a\nb"))
  }

  /** A mapping that points at the second of two content lines still yields `None`. */
  lemma ContentLineDropsTheLine()
    ensures ContentLine(TwoLineMapping()) == Success(None)
    ensures ContentLineFixed(TwoLineMapping()) == Some("b")
  {
    var content := "a\nb";
    assert content == Join(["a", "b"], '\n');
    assert NoLineBreak("a") && NoLineBreak("b");
    SplitLinesJoin(["a", "b"]);
  }

  /** A mapping without source content makes `content_line` raise instead of yielding `None`. */
  lemma ContentLineRaisesWithoutContent(line: int, column: int)
    ensures ContentLine(Unmapped(line, column)) == Failure(NoContentAttribute)
    ensures ContentLineFixed(Unmapped(line, column)) == None
  {
  }

  /**
   * `content_line` as its name and the `None` results of its handler intend:
   * the `source_line`-th line of the source content, or `None` when there is
   * no content, no line, or no such line.
   */
  function ContentLineFixed(r: SourceMapping): Option<string>
  {
    match (r.sourceContent, r.sourceLine)
    case (Some(content), Some(l)) => PyIndex(SplitLines(content), l)
    case _ => None
  }

  /**
   * The corrected property yields a line exactly when the content has a line
   * at that position, and the line it yields holds no line boundary.
   */
  lemma ContentLineFixedLine(r: SourceMapping)
    ensures ContentLineFixed(r).Some? <==>
      r.sourceContent.Some? && r.sourceLine.Some?
      && -|SplitLines(r.sourceContent.value)| <= r.sourceLine.value < |SplitLines(r.sourceContent.value)|
    ensures ContentLineFixed(r).Some? ==> NoLineBreak(ContentLineFixed(r).value)
    ensures r.sourceContent.None? ==> ContentLineFixed(r) == None
  {
  }

  /**
   * For content made of lines joined by line feeds, the corrected property
   * yields exactly the line the mapping points at.
   */
  lemma ContentLineFixedPicksLine(r: SourceMapping, lines: seq<string>)
    requires |lines| >= 1 && lines[|lines| - 1] != []
    requires forall k :: 0 <= k < |lines| ==> NoLineBreak(lines[k])
    requires r.sourceContent == Some(Join(lines, '\n'))
    requires r.sourceLine.Some? && 0 <= r.sourceLine.value < |lines|
    ensures ContentLineFixed(r) == Some(lines[r.sourceLine.value])
  {
    SplitLinesJoin(lines);
  }
}
