/**
 The record store behind the viewer: every line in file order, the same
 lines split into metadata and coordinate data, a window start `pos`, the
 viewer's cursor `currentLine` into the visible lines, and the column
 sections. Besides `extend_meta`, `extend_data`, `pad_lines` and
 `iter_lines`, the parser and the viewer use `extend`, `append`,
 `count_lines(pred)` and `iter_lines(pred, n)`, given here the meanings
 their callers rely on.
 */
module MolStore {
  import opened PyStr
  import opened MolLines
  import opened PdbSections

  datatype MolData = MolData(
    name: string,
    pos: int,
    allLines: seq<MolLine>,
    meta: seq<MolLine>,
    data: seq<MolLine>,
    currentLine: int,
    sections: seq<PDBSection>)

  /** A fresh store: no lines, window and cursor at the top. */
  function New(name: string, sections: seq<PDBSection>): (r: MolData)
    ensures r.allLines == [] && r.meta == [] && r.data == [] && Partitioned(r)
    ensures r.pos == 0 && r.currentLine == 0 && r.name == name && r.sections == sections
  {
    MolData(name, 0, [], [], [], 0, sections)
  }

  /** The metadata and data lists split `allLines` between them. */
  ghost predicate Partitioned(md: MolData) {
    && |md.allLines| == |md.meta| + |md.data|
    && multiset(md.allLines) == multiset(md.meta) + multiset(md.data)
  }

  /** `MolData.extend_meta`: the lines go to the end of the full list and
      of the metadata list; nothing else changes. */
  function ExtendMeta(md: MolData, lines: seq<MolLine>): (r: MolData)
    ensures |r.allLines| == |md.allLines| + |lines|
    ensures r.allLines[..|md.allLines|] == md.allLines && r.allLines[|md.allLines|..] == lines
    ensures |r.meta| == |md.meta| + |lines|
    ensures r.meta[..|md.meta|] == md.meta && r.meta[|md.meta|..] == lines
    ensures r.data == md.data
    ensures r.name == md.name && r.pos == md.pos && r.currentLine == md.currentLine && r.sections == md.sections
    ensures Partitioned(md) ==> Partitioned(r)
  {
    md.(allLines := md.allLines + lines, meta := md.meta + lines)
  }

  /** `MolData.extend_data`: the lines go to the end of the full list and
      of the data list; nothing else changes. */
  function ExtendData(md: MolData, lines: seq<MolLine>): (r: MolData)
    ensures |r.allLines| == |md.allLines| + |lines|
    ensures r.allLines[..|md.allLines|] == md.allLines && r.allLines[|md.allLines|..] == lines
    ensures |r.data| == |md.data| + |lines|
    ensures r.data[..|md.data|] == md.data && r.data[|md.data|..] == lines
    ensures r.meta == md.meta
    ensures r.name == md.name && r.pos == md.pos && r.currentLine == md.currentLine && r.sections == md.sections
    ensures Partitioned(md) ==> Partitioned(r)
  {
    md.(allLines := md.allLines + lines, data := md.data + lines)
  }

  /** `extend` as the parser uses it: the lines go to the end of the full
      list only. */
  function Extend(md: MolData, lines: seq<MolLine>): (r: MolData)
    ensures |r.allLines| == |md.allLines| + |lines|
    ensures r.allLines[..|md.allLines|] == md.allLines && r.allLines[|md.allLines|..] == lines
    ensures r.meta == md.meta && r.data == md.data
    ensures r.name == md.name && r.pos == md.pos && r.currentLine == md.currentLine && r.sections == md.sections
  {
    md.(allLines := md.allLines + lines)
  }

  /** `append`: one line to the end of the full list. */
  function Append(md: MolData, line: MolLine): (r: MolData)
    ensures |r.allLines| == |md.allLines| + 1 && r.allLines[|md.allLines|] == line
    ensures r.allLines[..|md.allLines|] == md.allLines
    ensures r.meta == md.meta && r.data == md.data
    ensures r.name == md.name && r.pos == md.pos && r.currentLine == md.currentLine && r.sections == md.sections
  {
    Extend(md, [line])
  }

  /** The longest text among a non-empty list of lines. */
  function MaxTextLen(lines: seq<MolLine>): (w: nat)
    requires |lines| > 0
    ensures forall i :: 0 <= i < |lines| ==> |lines[i].text| <= w
    ensures exists i :: 0 <= i < |lines| && |lines[i].text| == w
  {
    if |lines| == 1 then |lines[0].text|
    else
      var w' := MaxTextLen(lines[1..]);
      assert forall i :: 1 <= i < |lines| ==> lines[i] == lines[1..][i - 1];
      if |lines[0].text| < w' then w' else |lines[0].text|
  }

  /** `line.text = line.text.ljust(width)` on every line. */
  function PadAll(lines: seq<MolLine>, width: int): (r: seq<MolLine>)
    ensures |r| == |lines|
    ensures forall i :: 0 <= i < |r| ==> r[i] == MolLine(LJust(lines[i].text, width), lines[i].kind)
  {
    seq(|lines|, i requires 0 <= i < |lines| => MolLine(LJust(lines[i].text, width), lines[i].kind))
  }

  /** `padded` is `orig` with every text right-padded with spaces to at
      least `width` characters, kinds kept. */
  ghost predicate PaddedFrom(orig: seq<MolLine>, padded: seq<MolLine>, width: int) {
    && |padded| == |orig|
    && forall i :: 0 <= i < |orig| ==>
         && padded[i].kind == orig[i].kind
         && |padded[i].text| == Max(|orig[i].text|, width)
         && padded[i].text[..|orig[i].text|] == orig[i].text
         && (forall k :: |orig[i].text| <= k < |padded[i].text| ==> padded[i].text[k] == ' ')
  }

  /** `MolData.pad_lines`: every text is padded to the longest text of the
      full list, which fails (Python's `max` of an empty sequence) when
      there are no lines. The metadata and data lists hold the very same
      line objects, so their texts are padded to the same width. */
  function PadLines(md: MolData): (r: Option<MolData>)
    ensures r.None? <==> |md.allLines| == 0
    ensures r.Some? ==>
              var w := MaxTextLen(md.allLines);
              && PaddedFrom(md.allLines, r.value.allLines, w)
              && (forall i :: 0 <= i < |r.value.allLines| ==> |r.value.allLines[i].text| == w)
              && PaddedFrom(md.meta, r.value.meta, w)
              && PaddedFrom(md.data, r.value.data, w)
    ensures r.Some? ==> r.value.name == md.name && r.value.pos == md.pos
                        && r.value.currentLine == md.currentLine && r.value.sections == md.sections
  {
    if |md.allLines| == 0 then None
    else
      var w := MaxTextLen(md.allLines);
      Some(md.(allLines := PadAll(md.allLines, w), meta := PadAll(md.meta, w), data := PadAll(md.data, w)))
  }

  /** Padding an already padded store changes nothing. */
  lemma PadLinesIdempotent(md: MolData)
    requires |md.allLines| > 0
    ensures PadLines(md).Some? && PadLines(PadLines(md).value) == PadLines(md)
  {
    var p := PadLines(md).value;
    var w := MaxTextLen(md.allLines);
    assert MaxTextLen(p.allLines) == w;
    forall i | 0 <= i < |p.allLines| ensures LJust(p.allLines[i].text, w) == p.allLines[i].text {
      assert LJust(p.allLines[i].text, w) == p.allLines[i].text + [];
    }
    assert PadAll(p.allLines, w) == p.allLines;
    forall i | 0 <= i < |p.meta| ensures LJust(p.meta[i].text, w) == p.meta[i].text {
      assert Repeat(' ', w - |p.meta[i].text|) == [];
    }
    assert PadAll(p.meta, w) == p.meta;
    forall i | 0 <= i < |p.data| ensures LJust(p.data[i].text, w) == p.data[i].text {
      assert Repeat(' ', w - |p.data[i].text|) == [];
    }
    assert PadAll(p.data, w) == p.data;
  }

  /** `MolData.iter_lines(nlines)`: the slice `allLines[pos:pos+nlines]`,
      in order; at most `nlines` lines, none once `pos` is past the end. */
  function IterLines(md: MolData, nlines: int): (r: seq<MolLine>)
    ensures 0 <= md.pos && 0 <= nlines ==>
              && |r| <= nlines
              && (md.pos >= |md.allLines| ==> r == [])
              && (md.pos < |md.allLines| ==>
                    r == md.allLines[md.pos..Min(md.pos + nlines, |md.allLines|)])
  {
    Slice(md.allLines, md.pos, md.pos + nlines)
  }

  /** `count_lines(pred)`: how many lines satisfy `pred`. */
  function CountLines(lines: seq<MolLine>, pred: MolLine -> bool): (n: nat)
    ensures n <= |lines|
  {
    if lines == [] then 0
    else (if pred(lines[0]) then 1 else 0) + CountLines(lines[1..], pred)
  }

  /** No line is counted exactly when none passes, and every line exactly
      when all pass. */
  lemma {:induction false} CountLinesExtremes(lines: seq<MolLine>, pred: MolLine -> bool)
    ensures CountLines(lines, pred) == 0 <==> forall i :: 0 <= i < |lines| ==> !pred(lines[i])
    ensures CountLines(lines, pred) == |lines| <==> forall i :: 0 <= i < |lines| ==> pred(lines[i])
  {
    if lines != [] {
      CountLinesExtremes(lines[1..], pred);
      assert forall i :: 1 <= i < |lines| ==> lines[i] == lines[1..][i - 1];
    }
  }

  /** The lines satisfying `pred`, in file order: the sequence the viewer
      scrolls through. */
  function Filtered(lines: seq<MolLine>, pred: MolLine -> bool): (r: seq<MolLine>)
    ensures |r| == CountLines(lines, pred)
    ensures forall i :: 0 <= i < |r| ==> pred(r[i])
    ensures forall x :: x in r <==> x in lines && pred(x)
  {
    if lines == [] then []
    else if pred(lines[0]) then [lines[0]] + Filtered(lines[1..], pred)
    else Filtered(lines[1..], pred)
  }

  /** Filtering keeps the relative order: it distributes over
      concatenation. */
  lemma {:induction false} FilteredAppend(a: seq<MolLine>, b: seq<MolLine>, pred: MolLine -> bool)
    ensures Filtered(a + b, pred) == Filtered(a, pred) + Filtered(b, pred)
  {
    if a == [] {
      assert a + b == b;
    } else {
      assert (a + b)[0] == a[0];
      assert (a + b)[1..] == a[1..] + b;
      FilteredAppend(a[1..], b, pred);
    }
  }

  /** A last line that passes the filter is the last filtered line. */
  lemma FilteredKeepsLast(lines: seq<MolLine>, pred: MolLine -> bool)
    requires |lines| > 0 && pred(lines[|lines| - 1])
    ensures var vis := Filtered(lines, pred);
            |vis| >= 1 && vis[|vis| - 1] == lines[|lines| - 1]
  {
    var n := |lines|;
    assert lines == lines[..n - 1] + [lines[n - 1]];
    FilteredAppend(lines[..n - 1], [lines[n - 1]], pred);
  }

  /** `iter_lines(pred, nlines)`: the visible lines from the cursor on,
      `visible[currentLine:currentLine+nlines]`; every line it yields is
      visible, and for a non-negative cursor there are at most `nlines`. */
  function IterVisible(md: MolData, pred: MolLine -> bool, nlines: int): (r: seq<MolLine>)
    ensures forall i :: 0 <= i < |r| ==> pred(r[i])
    ensures 0 <= md.currentLine && 0 <= nlines ==> |r| <= nlines
    ensures 0 <= md.currentLine < CountLines(md.allLines, pred) && 0 < nlines ==>
              |r| > 0 && r[0] == Filtered(md.allLines, pred)[md.currentLine]
    ensures var vis := Filtered(md.allLines, pred);
            0 <= md.currentLine && 0 <= nlines ==>
              r == (if md.currentLine <= |vis| then vis[md.currentLine..Min(md.currentLine + nlines, |vis|)] else [])
  {
    var visible := Filtered(md.allLines, pred);
    VisibleWindow(visible, pred, md.currentLine, nlines);
    Slice(visible, md.currentLine, md.currentLine + nlines)
  }

  /** The window over a sequence of visible lines holds visible lines
      only. */
  lemma VisibleWindow(visible: seq<MolLine>, pred: MolLine -> bool, i: int, n: int)
    requires forall k :: 0 <= k < |visible| ==> pred(visible[k])
    ensures var r := Slice(visible, i, i + n);
            forall k :: 0 <= k < |r| ==> pred(r[k])
    ensures 0 <= i && 0 <= n ==>
              var r := Slice(visible, i, i + n);
              && r == (if i <= |visible| then visible[i..Min(i + n, |visible|)] else [])
              && |r| <= n
              && (i < |visible| && 0 < n ==> |r| > 0 && r[0] == visible[i])
  {
    var r := Slice(visible, i, i + n);
    forall k | 0 <= k < |r| ensures pred(r[k]) {
      assert r[k] in visible;
    }
    if 0 <= i && 0 <= n {
      SliceWindow(visible, i, n);
    }
  }
}
