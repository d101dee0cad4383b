/**
 The viewer's state machine with all drawing removed: kind toggles and
 the visibility predicate built from them, scrolling of the cursor over
 the visible lines, cursor repositioning, the alternating-column mask,
 and the per-cell colour pairs handed to the terminal toolkit. Colour
 pairs are opaque numbers, so everything here is pure.
 */
module Tui {
  import opened PyStr
  import opened MolLines
  import opened MolStore
  import opened PdbSections

  datatype ColorBy = ROWTYPE | COLUMN

  /** The colour pairs the toolkit hands out at start-up and its plain
      attribute `A_NORMAL`. */
  datatype Palette = Palette(
    pairNone: int, pairMeta: int,
    pairAtom: int, pairHete: int, pairAtomAlt: int, pairHeteAlt: int,
    pairHelp: int, pairHelp0: int, pairHelp1: int,
    attrNormal: int)

  datatype Viewer = Viewer(
    mol: MolData,
    showAtom: bool,
    showHete: bool,
    showMeta: bool,
    colorBy: ColorBy,
    maskAltColumns: seq<bool>)

  // ---------------------------------------------------------------------------
  // The alternating-column mask built by the constructor

  /** The constructor's loop from section `i` on: every section at an even
      position has its columns set with a list slice assignment. */
  function PaintSections(mask: seq<bool>, sections: seq<PDBSection>, i: nat): (r: seq<bool>)
    ensures SectionsWithin(sections, |mask|) ==> |r| == |mask|
    ensures SectionsWithin(sections, |mask|) ==> forall c :: 0 <= c < |mask| && mask[c] ==> r[c]
    decreases |sections| - i
  {
    if i >= |sections| then mask
    else if i % 2 == 1 then PaintSections(mask, sections, i + 1)
    else
      var s := sections[i];
      PaintSections(SliceAssign(mask, s.start, s.end, Repeat(true, s.end - s.start)), sections, i + 1)
  }

  /** `_mask_alt_columns`: `lengthRecord` falses, then the even-indexed
      sections painted true. */
  function AltColumnMask(lengthRecord: nat, sections: seq<PDBSection>): (r: seq<bool>)
    ensures SectionsWithin(sections, lengthRecord) ==> |r| == lengthRecord
  {
    PaintSections(Repeat(false, lengthRecord), sections, 0)
  }

  predicate SectionsWithin(sections: seq<PDBSection>, lengthRecord: nat) {
    forall i :: 0 <= i < |sections| ==> 0 <= sections[i].start <= sections[i].end <= lengthRecord
  }

  /** Column `c` lies in some section at an even position `>= lo`. */
  predicate InEvenSection(sections: seq<PDBSection>, lo: nat, c: int) {
    exists j :: lo <= j < |sections| && j % 2 == 0 && sections[j].start <= c < sections[j].end
  }

  /** One step of the constructor's loop, for one column: the column is
      set afterwards iff it was set before or section `i` is at an even
      position and covers it. */
  lemma PaintStepColumn(mask: seq<bool>, sections: seq<PDBSection>, i: nat, c: int)
    requires SectionsWithin(sections, |mask|) && i < |sections| && 0 <= c < |mask|
    ensures var s := sections[i];
            var next := if i % 2 == 1 then mask else SliceAssign(mask, s.start, s.end, Repeat(true, s.end - s.start));
            |next| == |mask| && (next[c] <==> mask[c] || (i % 2 == 0 && s.start <= c < s.end))
  {
    var s := sections[i];
    if i % 2 == 0 {
      var fill := Repeat(true, s.end - s.start);
      var next := mask[..s.start] + fill + mask[s.end..];
      assert SliceAssign(mask, s.start, s.end, fill) == next;
      if c < s.start {
        assert next[c] == mask[..s.start][c];
      } else if c < s.end {
        assert next[c] == fill[c - s.start];
      } else {
        assert next[c] == mask[s.end..][c - s.end];
      }
    }
  }

  /** Column `c` is in an even section from `i` on iff section `i` is even
      and covers it, or some later even section does. */
  lemma InEvenSectionStep(sections: seq<PDBSection>, i: nat, c: int)
    requires i < |sections|
    ensures InEvenSection(sections, i, c) <==>
              (i % 2 == 0 && sections[i].start <= c < sections[i].end) || InEvenSection(sections, i + 1, c)
  {
    if InEvenSection(sections, i, c) {
      var j :| i <= j < |sections| && j % 2 == 0 && sections[j].start <= c < sections[j].end;
      if j > i {
        assert InEvenSection(sections, i + 1, c);
      }
    }
    if InEvenSection(sections, i + 1, c) {
      var j :| i + 1 <= j < |sections| && j % 2 == 0 && sections[j].start <= c < sections[j].end;
      assert InEvenSection(sections, i, c);
    }
  }

  lemma {:induction false} PaintSectionsSpec(mask: seq<bool>, sections: seq<PDBSection>, i: nat)
    requires SectionsWithin(sections, |mask|)
    ensures |PaintSections(mask, sections, i)| == |mask|
    ensures forall c :: 0 <= c < |mask| ==>
              (PaintSections(mask, sections, i)[c] <==> mask[c] || InEvenSection(sections, i, c))
    decreases |sections| - i
  {
    if i < |sections| {
      var s := sections[i];
      var next := if i % 2 == 1 then mask else SliceAssign(mask, s.start, s.end, Repeat(true, s.end - s.start));
      assert PaintSections(mask, sections, i) == PaintSections(next, sections, i + 1);
      assert |next| == |mask|;
      PaintSectionsSpec(next, sections, i + 1);
      forall c | 0 <= c < |mask|
        ensures PaintSections(mask, sections, i)[c] <==> mask[c] || InEvenSection(sections, i, c)
      {
        PaintStepColumn(mask, sections, i, c);
        InEvenSectionStep(sections, i, c);
      }
    } else {
      assert forall c :: !InEvenSection(sections, i, c);
    }
  }

  /** For sections inside the record, the mask is one flag per record
      column, true exactly on the columns of the sections at even
      positions (0, 2, 4, ...). */
  lemma AltColumnMaskSpec(lengthRecord: nat, sections: seq<PDBSection>)
    requires SectionsWithin(sections, lengthRecord)
    ensures |AltColumnMask(lengthRecord, sections)| == lengthRecord
    ensures forall c :: 0 <= c < lengthRecord ==>
              (AltColumnMask(lengthRecord, sections)[c] <==> InEvenSection(sections, 0, c))
  {
    PaintSectionsSpec(Repeat(false, lengthRecord), sections, 0);
  }

  /** A section running past the record end makes Python's slice
      assignment lengthen the mask. */
  lemma AltColumnMaskOverrun()
    ensures AltColumnMask(2, [PDBSection("X", 1, 3)]) == [false, true, true]
  {
    assert Repeat(false, 2) == [false, false];
    assert SliceAssign([false, false], 1, 3, Repeat(true, 2)) == [false, true, true];
  }

  /** `TUIMolPrisma.__init__`: every kind shown, row-type colouring. */
  function Init(mol: MolData, lengthRecord: nat): (v: Viewer)
    ensures v.mol == mol && v.showAtom && v.showHete && v.showMeta && v.colorBy == ROWTYPE
    ensures SectionsWithin(mol.sections, lengthRecord) ==> |v.maskAltColumns| == lengthRecord
  {
    Viewer(mol, true, true, true, ROWTYPE, AltColumnMask(lengthRecord, mol.sections))
  }

  // ---------------------------------------------------------------------------
  // Visibility

  /** The predicate `_update_filter_key` builds from the three toggles:
      the sentinel is always visible, every other kind exactly when its
      toggle is on. */
  function KindFilter(showAtom: bool, showHete: bool, showMeta: bool): (f: MolLine -> bool)
    ensures forall line :: f(line) <==>
              || line.kind == NONE
              || (line.kind == META && showMeta)
              || (line.kind == ATOM && showAtom)
              || (line.kind == HETE && showHete)
  {
    (line: MolLine) =>
      match line.kind
      case NONE => true
      case META => showMeta
      case ATOM => showAtom
      case HETE => showHete
  }

  /** The viewer's current visibility predicate, from its toggles. */
  function FilterKey(v: Viewer): (f: MolLine -> bool)
    ensures forall line :: f(line) <==>
              || line.kind == NONE
              || (line.kind == META && v.showMeta)
              || (line.kind == ATOM && v.showAtom)
              || (line.kind == HETE && v.showHete)
  {
    KindFilter(v.showAtom, v.showHete, v.showMeta)
  }

  /** The kind filter accepts NONE unconditionally and each other kind
      exactly when its toggle is set. */
  lemma FilterKeyByKind(v: Viewer, line: MolLine)
    ensures line.kind == NONE ==> FilterKey(v)(line)
    ensures line.kind == META ==> (FilterKey(v)(line) <==> v.showMeta)
    ensures line.kind == ATOM ==> (FilterKey(v)(line) <==> v.showAtom)
    ensures line.kind == HETE ==> (FilterKey(v)(line) <==> v.showHete)
  {
  }

  /** The constructor's `lambda _: True` is the predicate of its own
      toggles, all on: it accepts every line, so the store is seen whole. */
  lemma InitFilterAcceptsAll(mol: MolData, lengthRecord: nat)
    ensures forall line :: FilterKey(Init(mol, lengthRecord))(line)
    ensures Filtered(mol.allLines, FilterKey(Init(mol, lengthRecord))) == mol.allLines
  {
    FilteredAllPass(mol.allLines, FilterKey(Init(mol, lengthRecord)));
  }

  lemma {:induction false} FilteredAllPass(lines: seq<MolLine>, pred: MolLine -> bool)
    requires forall i :: 0 <= i < |lines| ==> pred(lines[i])
    ensures Filtered(lines, pred) == lines
  {
    if lines != [] {
      FilteredAllPass(lines[1..], pred);
    }
  }

  /** With every toggle off only NONE lines stay visible. */
  lemma AllHiddenLeavesSentinels(v: Viewer)
    requires !v.showAtom && !v.showHete && !v.showMeta
    ensures forall x :: x in Filtered(v.mol.allLines, FilterKey(v)) <==> x in v.mol.allLines && x.kind == NONE
  {
  }

  /** A store ending with the sentinel: the sentinel is the last visible
      line whatever the toggles, so at least one line is visible. */
  lemma SentinelAlwaysVisible(v: Viewer)
    requires |v.mol.allLines| > 0 && v.mol.allLines[|v.mol.allLines| - 1].kind == NONE
    ensures var vis := Filtered(v.mol.allLines, FilterKey(v));
            |vis| >= 1 && vis[|vis| - 1] == v.mol.allLines[|v.mol.allLines| - 1]
    ensures CountLines(v.mol.allLines, FilterKey(v)) >= 1
  {
    FilteredKeepsLast(v.mol.allLines, FilterKey(v));
  }

  // ---------------------------------------------------------------------------
  // Scrolling

  /** Number of visible lines: `count_lines(filter_key)`. */
  function VisibleCount(v: Viewer): nat {
    CountLines(v.mol.allLines, FilterKey(v))
  }

  /** `_scroll_up`: back by `nlines`, never above the first line; nothing
      but the cursor changes. */
  function ScrollUp(v: Viewer, nlines: int): (r: Viewer)
    ensures r == v.(mol := v.mol.(currentLine := r.mol.currentLine))
    ensures r.mol.currentLine >= 0
    ensures nlines >= 0 ==> r.mol.currentLine <= Max(0, v.mol.currentLine)
    ensures r.mol.currentLine == v.mol.currentLine - nlines || (r.mol.currentLine == 0 && v.mol.currentLine - nlines < 0)
  {
    v.(mol := v.mol.(currentLine := Max(0, v.mol.currentLine - nlines)))
  }

  /** `_scroll_down`: forward by `nlines`, never past the last visible
      line before the sentinel; there is no lower bound. */
  function ScrollDown(v: Viewer, nlines: int): (r: Viewer)
    ensures r == v.(mol := v.mol.(currentLine := r.mol.currentLine))
    ensures r.mol.currentLine <= VisibleCount(v) - 2
    ensures r.mol.currentLine == v.mol.currentLine + nlines
            || (r.mol.currentLine == VisibleCount(v) - 2 && v.mol.currentLine + nlines > VisibleCount(v) - 2)
  {
    var available := VisibleCount(v) - 1;
    v.(mol := v.mol.(currentLine := Min(v.mol.currentLine + nlines, available - 1)))
  }

  /** `_scroll_up(inf)`: straight to the first line, the state any
      upward scroll reaching past the top ends in. */
  function ScrollTop(v: Viewer): (r: Viewer)
    ensures forall n :: n >= v.mol.currentLine ==> ScrollUp(v, n) == r
  {
    v.(mol := v.mol.(currentLine := 0))
  }

  /** `_scroll_down(inf)`: straight to the last line before the
      sentinel, the state any downward scroll reaching past it ends in. */
  function ScrollBottom(v: Viewer): (r: Viewer)
    ensures forall n :: v.mol.currentLine + n >= VisibleCount(v) - 2 ==> ScrollDown(v, n) == r
  {
    v.(mol := v.mol.(currentLine := VisibleCount(v) - 2))
  }

  /** Scrolling up and then down by the same amount (or down and then up)
      comes back to the same line while neither move is clamped. */
  lemma ScrollRoundTrip(v: Viewer, nlines: int)
    requires 0 <= v.mol.currentLine <= VisibleCount(v) - 2
    ensures v.mol.currentLine - nlines >= 0 ==> ScrollDown(ScrollUp(v, nlines), nlines) == v
    ensures v.mol.currentLine + nlines <= VisibleCount(v) - 2 && v.mol.currentLine + nlines >= 0 ==>
              ScrollUp(ScrollDown(v, nlines), nlines) == v
  {
  }

  /** When the sentinel is the only visible line, scrolling down puts the
      cursor at -1: the lower bound the scroll lacks. */
  lemma ScrollDownOnlySentinel(v: Viewer, nlines: int)
    requires VisibleCount(v) == 1 && v.mol.currentLine + nlines >= -1
    ensures ScrollDown(v, nlines).mol.currentLine == -1
  {
  }

  /** Jumping to the bottom and then to the top lands on line 0 whatever
      the toggles. */
  lemma BottomThenTop(v: Viewer)
    ensures ScrollTop(ScrollBottom(v)).mol.currentLine == 0
    ensures ScrollUp(ScrollBottom(v), VisibleCount(v)).mol.currentLine == 0
  {
  }

  // ---------------------------------------------------------------------------
  // Cursor repositioning

  /** The first position of `s` whose line satisfies `pred`, if any. */
  function FindFirst(s: seq<MolLine>, pred: MolLine -> bool): (r: Option<nat>)
    ensures r.None? <==> forall i :: 0 <= i < |s| ==> !pred(s[i])
    ensures r.Some? ==> r.value < |s| && pred(s[r.value]) && forall j :: 0 <= j < r.value ==> !pred(s[j])
  {
    if s == [] then None
    else if pred(s[0]) then Some(0)
    else match FindFirst(s[1..], pred)
      case None => None
      case Some(k) => Some(k + 1)
  }

  /** `_update_pos` as a function: the cursor goes to the enumeration index
      of the first yielded line the predicate accepts, or 0. */
  function UpdatePos(v: Viewer): (r: Viewer)
    ensures r == v.(mol := v.mol.(currentLine := r.mol.currentLine))
    ensures var vis := Filtered(v.mol.allLines, FilterKey(v));
            (vis == [] ==> r.mol.currentLine == 0)
            && (vis != [] ==> 0 <= r.mol.currentLine < |vis| && FilterKey(v)(vis[r.mol.currentLine]))
  {
    var vis := Filtered(v.mol.allLines, FilterKey(v));
    match FindFirst(vis, FilterKey(v))
    case None => v.(mol := v.mol.(currentLine := 0))
    case Some(k) => v.(mol := v.mol.(currentLine := k))
  }

  /** `_update_pos` as the source writes it: a loop over the yielded lines
      that stops at the first one the predicate accepts, leaving 0 when
      none is. */
  method UpdatePosLoop(yielded: seq<MolLine>, key: MolLine -> bool) returns (currentLine: nat)
    ensures FindFirst(yielded, key).None? ==> currentLine == 0
    ensures FindFirst(yielded, key).Some? ==> currentLine == FindFirst(yielded, key).value
  {
    currentLine := 0;
    var idx := 0;
    while idx < |yielded|
      invariant 0 <= idx <= |yielded|
      invariant forall j :: 0 <= j < idx ==> !key(yielded[j])
    {
      if key(yielded[idx]) {
        currentLine := idx;
        return;
      }
      idx := idx + 1;
    }
  }

  /** The lines `_update_pos` walks are already filtered by the same
      predicate, so the first of them is accepted: repositioning always
      returns the cursor to the top. */
  lemma UpdatePosIsTop(v: Viewer)
    ensures UpdatePos(v).mol.currentLine == 0
  {
    var vis := Filtered(v.mol.allLines, FilterKey(v));
    if vis != [] {
      assert FilterKey(v)(vis[0]);
    }
  }

  // ---------------------------------------------------------------------------
  // Toggles

  /** `_toggle_all`: each of the three flags is negated on its own. */
  function ToggleAll(v: Viewer): (r: Viewer)
    ensures r.showMeta == !v.showMeta && r.showAtom == !v.showAtom && r.showHete == !v.showHete
    ensures r.colorBy == v.colorBy && r.maskAltColumns == v.maskAltColumns
    ensures r.mol == v.mol.(currentLine := 0)
  {
    UpdatePos(v.(showMeta := !v.showMeta, showAtom := !v.showAtom, showHete := !v.showHete))
  }

  /** `_toggle_meta`: only the metadata flag changes. */
  function ToggleMeta(v: Viewer): (r: Viewer)
    ensures r.showMeta == !v.showMeta && r.showAtom == v.showAtom && r.showHete == v.showHete
    ensures r.colorBy == v.colorBy && r.maskAltColumns == v.maskAltColumns
    ensures r.mol == v.mol.(currentLine := 0)
  {
    UpdatePos(v.(showMeta := !v.showMeta))
  }

  /** `_toggle_atom`: only the ATOM flag changes. */
  function ToggleAtom(v: Viewer): (r: Viewer)
    ensures r.showAtom == !v.showAtom && r.showMeta == v.showMeta && r.showHete == v.showHete
    ensures r.colorBy == v.colorBy && r.maskAltColumns == v.maskAltColumns
    ensures r.mol == v.mol.(currentLine := 0)
  {
    UpdatePos(v.(showAtom := !v.showAtom))
  }

  /** `_toggle_hete`: only the HETATM flag changes. */
  function ToggleHete(v: Viewer): (r: Viewer)
    ensures r.showHete == !v.showHete && r.showMeta == v.showMeta && r.showAtom == v.showAtom
    ensures r.colorBy == v.colorBy && r.maskAltColumns == v.maskAltColumns
    ensures r.mol == v.mol.(currentLine := 0)
  {
    UpdatePos(v.(showHete := !v.showHete))
  }

  /** Any toggle applied twice restores every flag; the cursor is left at
      the top. */
  lemma ToggleTwice(v: Viewer)
    ensures ToggleAll(ToggleAll(v)) == v.(mol := v.mol.(currentLine := 0))
    ensures ToggleMeta(ToggleMeta(v)) == v.(mol := v.mol.(currentLine := 0))
    ensures ToggleAtom(ToggleAtom(v)) == v.(mol := v.mol.(currentLine := 0))
    ensures ToggleHete(ToggleHete(v)) == v.(mol := v.mol.(currentLine := 0))
  {
  }

  /** After a toggle the cursor rests on a visible line: the one-line
      window at the cursor holds a line the new predicate accepts. */
  lemma ToggleLandsOnVisible(v: Viewer)
    requires |v.mol.allLines| > 0 && v.mol.allLines[|v.mol.allLines| - 1].kind == NONE
    ensures var r := ToggleAll(v);
            var w := IterVisible(r.mol, FilterKey(r), 1);
            |w| == 1 && FilterKey(r)(w[0])
    ensures var r := ToggleMeta(v);
            var w := IterVisible(r.mol, FilterKey(r), 1);
            |w| == 1 && FilterKey(r)(w[0])
    ensures var r := ToggleAtom(v);
            var w := IterVisible(r.mol, FilterKey(r), 1);
            |w| == 1 && FilterKey(r)(w[0])
    ensures var r := ToggleHete(v);
            var w := IterVisible(r.mol, FilterKey(r), 1);
            |w| == 1 && FilterKey(r)(w[0])
  {
    SentinelAlwaysVisible(ToggleAll(v));
    SentinelAlwaysVisible(ToggleMeta(v));
    SentinelAlwaysVisible(ToggleAtom(v));
    SentinelAlwaysVisible(ToggleHete(v));
  }

  // ---------------------------------------------------------------------------
  // Actions

  /** What a key press asks for, once the key code is decoded. */
  datatype Action =
    | LineUp(n: int) | LineDown(n: int) | Top | Bottom
    | ToggleAllKinds | ToggleAtoms | ToggleHetatms | ToggleMetadata
    | ColourRows | ColourColumns | Help

  /** The state change of one `on_update`. */
  function Step(v: Viewer, a: Action): (r: Viewer)
    ensures r.mol.allLines == v.mol.allLines && r.mol.sections == v.mol.sections
    ensures r.mol.name == v.mol.name && r.mol.pos == v.mol.pos
    ensures r.maskAltColumns == v.maskAltColumns
    ensures a.LineUp? || a.LineDown? || a.Top? || a.Bottom? ==>
              r.showAtom == v.showAtom && r.showHete == v.showHete && r.showMeta == v.showMeta
              && r.colorBy == v.colorBy
    ensures a.ColourRows? ==> r == v.(colorBy := ROWTYPE)
    ensures a.ColourColumns? ==> r == v.(colorBy := COLUMN)
    ensures a.Help? ==> r == v
  {
    match a
    case LineUp(n) => ScrollUp(v, n)
    case LineDown(n) => ScrollDown(v, n)
    case Top => ScrollTop(v)
    case Bottom => ScrollBottom(v)
    case ToggleAllKinds => ToggleAll(v)
    case ToggleAtoms => ToggleAtom(v)
    case ToggleHetatms => ToggleHete(v)
    case ToggleMetadata => ToggleMeta(v)
    case ColourRows => v.(colorBy := ROWTYPE)
    case ColourColumns => v.(colorBy := COLUMN)
    case Help => v
  }

  // ---------------------------------------------------------------------------
  // Colour pairs

  /** Row-type colouring: the pair for a plain column and for an
      alternate one. */
  function BasePair(pal: Palette, kind: MolKind): int {
    match kind
    case NONE => pal.pairNone
    case META => pal.pairMeta
    case ATOM => pal.pairAtom
    case HETE => pal.pairHete
  }

  function AltPair(pal: Palette, kind: MolKind): int {
    match kind
    case NONE => pal.pairNone
    case META => pal.pairMeta
    case ATOM => pal.pairAtomAlt
    case HETE => pal.pairHeteAlt
  }

  /** `_get_attr_array`: in column mode one pair per character of the
      text; in row-type mode one pair per mask column, the alternate pair
      exactly where the mask is set. */
  function GetAttrArray(v: Viewer, pal: Palette, line: MolLine): (r: seq<int>)
    ensures v.colorBy == COLUMN ==>
              && |r| == |line.text|
              && forall i :: 0 <= i < |r| ==> r[i] == (if line.kind == NONE then pal.pairNone else pal.pairHelp)
    ensures v.colorBy == ROWTYPE ==>
              && |r| == |v.maskAltColumns|
              && forall c :: 0 <= c < |r| ==>
                   r[c] == (if v.maskAltColumns[c] then AltPair(pal, line.kind) else BasePair(pal, line.kind))
    ensures v.colorBy == ROWTYPE && !HasFields(line.kind) ==>
              forall c :: 0 <= c < |r| ==> r[c] == BasePair(pal, line.kind)
  {
    if v.colorBy == COLUMN then
      Repeat(if line.kind == NONE then pal.pairNone else pal.pairHelp, |line.text|)
    else
      var base, alt := BasePair(pal, line.kind), AltPair(pal, line.kind);
      seq(|v.maskAltColumns|, c requires 0 <= c < |v.maskAltColumns| =>
        if v.maskAltColumns[c] then alt else base)
  }

  /** For a coordinate record coloured by row type, with the mask built
      from sections inside the record and distinct plain and alternate
      pairs, a column gets the alternate pair exactly when it lies in a
      section at an even position. */
  lemma AttrBandsFollowSections(mol: MolData, lengthRecord: nat, pal: Palette, line: MolLine, c: int)
    requires SectionsWithin(mol.sections, lengthRecord)
    requires HasFields(line.kind) && BasePair(pal, line.kind) != AltPair(pal, line.kind)
    requires 0 <= c < lengthRecord
    ensures var r := GetAttrArray(Init(mol, lengthRecord), pal, line);
            |r| == lengthRecord && (r[c] == AltPair(pal, line.kind) <==> InEvenSection(mol.sections, 0, c))
  {
    AltColumnMaskSpec(lengthRecord, mol.sections);
  }

  /** One entry of the guide bar: a label and its state (none for a
      heading). */
  datatype Guide = Guide(text: string, condition: Option<bool>)

  /** The pair of a guide: help colour for a heading, otherwise the
      on/off colours. */
  function GuidePair(pal: Palette, g: Guide): int {
    match g.condition
    case None => pal.pairHelp
    case Some(b) => if b then pal.pairHelp1 else pal.pairHelp0
  }

  /** `"  ".join(texts)`. */
  function JoinTexts(guides: seq<Guide>): string {
    if |guides| == 0 then ""
    else if |guides| == 1 then guides[0].text
    else guides[0].text + "  " + JoinTexts(guides[1..])
  }

  /** The attributes: each guide's pair once per character, then two
      plain cells. */
  function GuideAttrs(pal: Palette, guides: seq<Guide>): seq<int> {
    if |guides| == 0 then []
    else Repeat(GuidePair(pal, guides[0]), |guides[0].text|) + [pal.attrNormal, pal.attrNormal]
         + GuideAttrs(pal, guides[1..])
  }

  /** Where guide `j` starts in the joined text. */
  function GuideOffset(guides: seq<Guide>, j: nat): nat
    requires j <= |guides|
  {
    if j == 0 then 0 else |guides[0].text| + 2 + GuideOffset(guides[1..], j - 1)
  }

  /** `_get_guides_matrices`: one row of characters and one of
      attributes; the attribute row runs two cells past the character row
      when there is any guide. */
  function GetGuidesMatrices(pal: Palette, guides: seq<Guide>): (r: (seq<string>, seq<seq<int>>))
    ensures |r.0| == 1 && |r.1| == 1
    ensures guides == [] ==> r.0[0] == [] && r.1[0] == []
    ensures guides != [] ==> |r.1[0]| == |r.0[0]| + 2
  {
    GuidesLengths(pal, guides);
    ([JoinTexts(guides)], [GuideAttrs(pal, guides)])
  }

  lemma {:induction false} GuidesLengths(pal: Palette, guides: seq<Guide>)
    ensures guides != [] ==> |GuideAttrs(pal, guides)| == |JoinTexts(guides)| + 2
    ensures |GuideAttrs(pal, guides)| == GuideOffset(guides, |guides|)
  {
    if guides != [] {
      GuidesLengths(pal, guides[1..]);
    }
  }

  /** Each guide's label sits at the same cells in both rows: character
      `k` of guide `j` is at `GuideOffset(j) + k` in the text, and the
      attribute there is that guide's pair. */
  lemma GuidesAligned(pal: Palette, guides: seq<Guide>, j: nat, k: nat)
    requires j < |guides| && k < |guides[j].text|
    ensures var r := GetGuidesMatrices(pal, guides);
            var p := GuideOffset(guides, j) + k;
            p < |r.0[0]| && p < |r.1[0]|
            && r.0[0][p] == guides[j].text[k]
            && r.1[0][p] == GuidePair(pal, guides[j])
  {
    AttrsAligned(pal, guides, j, k);
    TextsAligned(guides, j, k);
  }

  lemma {:induction false} AttrsAligned(pal: Palette, guides: seq<Guide>, j: nat, k: nat)
    requires j < |guides| && k < |guides[j].text|
    ensures var a := GuideAttrs(pal, guides);
            var p := GuideOffset(guides, j) + k;
            p < |a| && a[p] == GuidePair(pal, guides[j])
  {
    var head := Repeat(GuidePair(pal, guides[0]), |guides[0].text|) + [pal.attrNormal, pal.attrNormal];
    assert GuideAttrs(pal, guides) == head + GuideAttrs(pal, guides[1..]);
    if j > 0 {
      AttrsAligned(pal, guides[1..], j - 1, k);
      assert guides[1..][j - 1] == guides[j];
    }
  }

  lemma {:induction false} TextsAligned(guides: seq<Guide>, j: nat, k: nat)
    requires j < |guides| && k < |guides[j].text|
    ensures var t := JoinTexts(guides);
            var p := GuideOffset(guides, j) + k;
            p < |t| && t[p] == guides[j].text[k]
  {
    var t := JoinTexts(guides);
    if j == 0 {
      assert GuideOffset(guides, 0) == 0;
      if |guides| > 1 {
        var front := guides[0].text + "  ";
        assert t == front + JoinTexts(guides[1..]);
        assert t[k] == front[k];
      }
    } else {
      var front := guides[0].text + "  ";
      var rest := JoinTexts(guides[1..]);
      assert t == front + rest;
      TextsAligned(guides[1..], j - 1, k);
      assert guides[1..][j - 1] == guides[j];
      var q := GuideOffset(guides[1..], j - 1) + k;
      assert GuideOffset(guides, j) + k == |front| + q;
      assert t[|front| + q] == rest[q];
    }
  }

  /** After each label come two plain cells, and between two labels the
      text holds the two spaces of the join. */
  lemma GuidesSeparated(pal: Palette, guides: seq<Guide>, j: nat)
    requires j < |guides|
    ensures var r := GetGuidesMatrices(pal, guides);
            var p := GuideOffset(guides, j) + |guides[j].text|;
            && p + 1 < |r.1[0]|
            && r.1[0][p] == pal.attrNormal && r.1[0][p + 1] == pal.attrNormal
            && (j < |guides| - 1 ==> p + 1 < |r.0[0]| && r.0[0][p] == ' ' && r.0[0][p + 1] == ' ')
  {
    AttrsSeparated(pal, guides, j);
    if j < |guides| - 1 {
      TextsSeparated(guides, j);
    }
  }

  lemma {:induction false} AttrsSeparated(pal: Palette, guides: seq<Guide>, j: nat)
    requires j < |guides|
    ensures var a := GuideAttrs(pal, guides);
            var p := GuideOffset(guides, j) + |guides[j].text|;
            p + 1 < |a| && a[p] == pal.attrNormal && a[p + 1] == pal.attrNormal
  {
    var head := Repeat(GuidePair(pal, guides[0]), |guides[0].text|) + [pal.attrNormal, pal.attrNormal];
    assert GuideAttrs(pal, guides) == head + GuideAttrs(pal, guides[1..]);
    if j > 0 {
      AttrsSeparated(pal, guides[1..], j - 1);
      assert guides[1..][j - 1] == guides[j];
    }
  }

  lemma {:induction false} TextsSeparated(guides: seq<Guide>, j: nat)
    requires j < |guides| - 1
    ensures var t := JoinTexts(guides);
            var p := GuideOffset(guides, j) + |guides[j].text|;
            p + 1 < |t| && t[p] == ' ' && t[p + 1] == ' '
  {
    assert JoinTexts(guides) == (guides[0].text + "  ") + JoinTexts(guides[1..]);
    if j > 0 {
      TextsSeparated(guides[1..], j - 1);
      assert guides[1..][j - 1] == guides[j];
    }
  }

  // ---------------------------------------------------------------------------
  // One frame

  /** The rows `on_update` hands to the toolkit: the visible lines from
      the cursor on (at most `hdisplay`), their texts and their attribute
      arrays. The display height depends on the terminal and is given. */
  function Frame(v: Viewer, pal: Palette, hdisplay: int): (r: (seq<string>, seq<seq<int>>))
    ensures var lines := IterVisible(v.mol, FilterKey(v), hdisplay);
            && |r.0| == |lines| && |r.1| == |lines|
            && forall i :: 0 <= i < |lines| ==> r.0[i] == lines[i].text && r.1[i] == GetAttrArray(v, pal, lines[i])
    ensures 0 <= v.mol.currentLine && 0 <= hdisplay ==> |r.0| <= hdisplay
    ensures forall i :: 0 <= i < |r.1| ==>
              |r.1[i]| == (if v.colorBy == COLUMN then |r.0[i]| else |v.maskAltColumns|)
  {
    var lines := IterVisible(v.mol, FilterKey(v), hdisplay);
    (seq(|lines|, i requires 0 <= i < |lines| => lines[i].text),
     seq(|lines|, i requires 0 <= i < |lines| => GetAttrArray(v, pal, lines[i])))
  }
}
