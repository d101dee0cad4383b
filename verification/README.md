# molprisma core, modelled in Dafny

molprisma is a terminal viewer for PDB files. It reads the file's lines
and classifies each one by its record name: `ATOM` and `HETATM`
coordinate records (after the Coordinate Section of the wwPDB PDB File
Format v3.3), plus metadata. It appends an end-of-data sentinel line and
pads every line to a common width. The viewer then shows a window of the
visible lines. It lets the user scroll, and it lets the user hide or show
each record kind. Columns are coloured by record kind, with alternate
bands over every other PDB section. It also renders the guide bar and the
table of section column ranges.

This project models the pure layer under the drawing code:

- `utils.dfy` (module `Utils`): the cyclic optional-index stepper
  `none -> 0 -> ... -> maxval-1 -> none` and its reverse.
- `mol_line.dfy` (module `MolLines`): the record kinds, the line record,
  and fixed-column field extraction (`get_section_data`).
- `pdb_section.dfy` (module `PdbSections`): a named column range and its
  two printed forms.
- `mol_data.dfy` (module `MolStore`): the line store. It has the full,
  metadata and data lists, the window start, the cursor, padding, windowed
  iteration and the filtered view the viewer scrolls through.
- `parser_pdb.dfy` (module `ParserPdb`): classification by prefix, the
  sentinel, and padding.
- `tui.dfy` (module `Tui`): the viewer state machine with drawing removed.
  It covers the alternating-column mask, the visibility predicate, scroll
  clamping, toggles, cursor repositioning, per-cell colour pairs, the
  guide bar and the rows of one frame.
- `pystr.dfy` (module `PyStr`): the Python built-ins the code relies on,
  with Python's semantics. Slicing lets negative bounds count from the end
  and clamps every bound. List slice assignment can change a list's
  length. It also covers `[x] * k`, `strip`, `rstrip`, `ljust`,
  `startswith` and the `{:02}` format.

Colour pairs are opaque integers, collected in a `Palette`. The external
constants become parameters. `LENGTH_RECORD` is the `lengthRecord`
argument. `PDB_CONSTANTS` is a `map<string, int>`. The section list is a
field of the store.

The viewer calls a store API that `mol_data.py` does not define. It is
modelled with these meanings:
- `extend` and `append` add lines to the end of the full list.
- `count_lines(p)` counts the lines satisfying `p`.
- `iter_lines(p)` is the in-order sequence of lines satisfying `p`
  (`Filtered`).
- `iter_lines(p, n)` slices that sequence at `[current_line:current_line+n]`,
  the same way `MolData.iter_lines(n)` in mol_data.py slices at `pos`.
- `current_line` is an integer field.
- `_sections` is a sequence of `PDBSection`.

The viewer stores its visibility predicate as a closure. It is rebuilt on
every toggle from the three flags. Before the first toggle it is
`lambda _: True`. The model always derives it from the flags (`FilterKey`).
`Tui.InitFilterAcceptsAll` shows that the two agree at start-up, where all
flags are on.

Four behaviours of the code that the model keeps as they are:
- `_toggle_all` negates each of the three flags on its own.
- Parsing an empty file does not fail. It yields the sentinel alone
  (`ParserPdb.ParseEmpty`).
- `_scroll_down` has no lower clamp. With only the sentinel visible the
  cursor becomes -1 (`Tui.ScrollDownOnlySentinel`).
- `_update_pos` walks `iter_lines(pred)`. Those lines are already filtered
  by the same predicate, so the cursor always returns to 0
  (`Tui.UpdatePosIsTop`).

## Model

| member | source | states |
|---|---|---|
| Utils.PrevCyclic | molprisma/misc/utils.py:4-7 | for `maxval >= 1`, a value that is none or in `[0, maxval)` steps back to such a value |
| Utils.NextCyclic | molprisma/misc/utils.py:11-14 | for `maxval >= 1`, a value that is none or in `[0, maxval)` steps forward to such a value |
| Utils.CyclicTable | molprisma/misc/utils.py:4-14 | next: `maxval-1` goes to none, none to 0, any other k to k+1; prev: 0 goes to none, none to `maxval-1`, any other k to k-1 |
| Utils.CyclicRoundTrip | molprisma/misc/utils.py:4-14 | on the proper range (`maxval >= 1`), prev undoes next and next undoes prev |
| Utils.CyclicEmptyRange | molprisma/misc/utils.py:5-13 | with `maxval == 0`, next of none is 0 and prev of none is -1, both outside the (empty) range |
| Utils.NextCyclicOrbit | molprisma/misc/utils.py:11-14 | `maxval+1` forward steps return to the start, and none is visited exactly once on the way, at a known step |
| MolLines.GetSectionData | molprisma/data/mol_line.py:10-15 | a value exists iff the kind is ATOM/HETE and both `<name>_START` and `<name>_END` are in the table; it has no whitespace at either end, is no longer than the text, and for non-negative bounds is at most `end-start` long |
| MolLines.SectionDataIsColumns | molprisma/data/mol_line.py:15 | for `0 <= start <= end`, the value is a run of the text inside the columns clamped to the text, with only whitespace between it and each bound |
| MolLines.SectionDataOfShortLine | molprisma/data/mol_line.py:15 | a text ending before the start column yields the empty string, not an error |
| PdbSections.DisplayIdxRange | molprisma/data/pdb_section.py:9-12 | the zero-based form is bracketed `[..[` and at least 7 long, the one-based form `(..)` and at least 8 long; the two read-back lemmas below give its digits |
| PdbSections.ZeroIndexedReadsBack | molprisma/data/pdb_section.py:10-11 | for non-negative bounds, `[..,..[` holds two digit runs, split at its only comma, that read back as start and end |
| PdbSections.OneIndexedReadsBack | molprisma/data/pdb_section.py:12 | for non-negative bounds, `(....)` holds digit runs, split at "..", that read back as start+1 and end |
| PdbSections.DisplayWidth | molprisma/data/pdb_section.py:9-12 | with bounds up to 99 the zero-based form has 7 characters and the one-based form 8 |
| PyStr.Digits | molprisma/data/pdb_section.py:11-12 | `str(n)`: a non-empty digit run with no leading zero from 10 on, one digit iff n < 10, two iff 10 <= n < 100 |
| PyStr.Format02 | molprisma/data/pdb_section.py:11-12 | `{x:02}` is at least 2 long, all digits for x >= 0, and exactly two digits iff 0 <= x < 100 |
| PyStr.Format02RoundTrip | molprisma/data/pdb_section.py:11-12 | `{n:02}` of a natural number is all digits, reads back as n, and has `max(2, digits of n)` characters |
| MolStore.ExtendMeta | molprisma/data/mol_data.py:12-14 | the lines follow the old full list and the old metadata list; data, window and cursor are unchanged; the split of the full list into metadata and data is preserved |
| MolStore.ExtendData | molprisma/data/mol_data.py:17-19 | the lines follow the old full list and the old data list; metadata, window and cursor are unchanged; the split is preserved |
| MolStore.MaxTextLen | molprisma/data/mol_data.py:23 | on a non-empty list, no text is longer than the result and some text has exactly that length |
| MolStore.PadLines | molprisma/data/mol_data.py:22-25 | fails exactly on an empty store; otherwise every full-list text has the longest length, keeps its old text as a prefix and gains only spaces; metadata and data are padded to the same width |
| MolStore.PadLinesIdempotent | molprisma/data/mol_data.py:22-25 | padding a padded store changes nothing |
| MolStore.IterLines | molprisma/data/mol_data.py:28-30 | for non-negative `pos` and `n`, exactly `allLines[pos:pos+n]` in order: at most n lines, none once `pos` is past the end |
| MolStore.New | molprisma/data/mol_data.py:5-9 | an empty store, trivially split into metadata and data, with window and cursor at 0 and the given name and sections |
| MolStore.Extend | molprisma/parsers/parser_pdb.py:26-29 | the new lines follow the old full list; metadata, data, name, window, cursor and sections are unchanged |
| MolStore.Append | molprisma/parsers/parser_pdb.py:30 | one line after the old full list; metadata, data, name, window, cursor and sections are unchanged |
| MolStore.CountLines | molprisma/interface/tui.py:151 | `count_lines(p)` is at most the number of lines |
| MolStore.CountLinesExtremes | molprisma/interface/tui.py:151 | `count_lines(p)` is 0 iff no line satisfies p, and the number of lines iff every line does |
| MolStore.Filtered | molprisma/interface/tui.py:151 | its length is `count_lines(p)`; every element satisfies p; it holds exactly the lines that satisfy p |
| MolStore.FilteredAppend | molprisma/interface/tui.py:228 | filtering distributes over concatenation, so file order is kept |
| MolStore.FilteredKeepsLast | molprisma/interface/tui.py:151 | when the last line passes the filter, it is the last filtered line, so at least one line is filtered |
| MolStore.IterVisible | molprisma/interface/tui.py:89 | for a non-negative cursor and n, exactly the visible lines `visible[cursor:cursor+n]` in file order, or none once the cursor is past them; every yielded line is visible; a cursor on a visible line starts the window with that line |
| ParserPdb.GetKind | molprisma/parsers/parser_pdb.py:18-23 | ATOM iff the line starts with "ATOM"; HETE iff it does not and starts with "HETATM"; META otherwise; never NONE |
| ParserPdb.Classify | molprisma/parsers/parser_pdb.py:26-29 | one record per raw line, in order: the text with trailing newlines removed, the kind of the raw line |
| ParserPdb.Parse | molprisma/parsers/parser_pdb.py:17-32 | `len(raw)+1` records; record i has raw line i's kind, which is never NONE; the last record is NONE; the store's cursor and window start at 0 |
| ParserPdb.ParsePadsToLongest | molprisma/parsers/parser_pdb.py:31 | every record, the sentinel included, is exactly as wide as the longest newline-stripped raw line, or 0 wide when there is none |
| ParserPdb.ParseKeepsText | molprisma/parsers/parser_pdb.py:27-31 | each record's text is its newline-stripped raw line followed only by spaces |
| ParserPdb.ParseSentinelBlank | molprisma/parsers/parser_pdb.py:30-31 | the padded sentinel is all spaces |
| ParserPdb.ParseSentinelUnique | molprisma/parsers/parser_pdb.py:18-30 | a record is NONE iff it is the last one |
| ParserPdb.ParseEmpty | molprisma/parsers/parser_pdb.py:26-31 | an empty file parses to the empty sentinel alone |
| ParserPdb.GetKindIgnoresNewlines | molprisma/parsers/parser_pdb.py:19-27 | classifying the raw line or the newline-stripped text gives the same kind |
| Tui.PaintSections | molprisma/interface/tui.py:29-31 | with sections inside the mask, the painting loop keeps the mask's length and never clears a set column |
| Tui.AltColumnMask | molprisma/interface/tui.py:28-31 | with sections inside the record, the mask has `LENGTH_RECORD` flags |
| Tui.AltColumnMaskSpec | molprisma/interface/tui.py:28-31 | for sections inside the record, the mask has `LENGTH_RECORD` flags and column c is set iff c lies in `[start,end)` of a section at an even position |
| Tui.AltColumnMaskOverrun | molprisma/interface/tui.py:31 | a section running past the record end lengthens the mask, because of how Python slice assignment works |
| Tui.Init | molprisma/interface/tui.py:20-33 | the viewer starts on the given store with every kind shown, row-type colouring, and a mask of `LENGTH_RECORD` flags for in-record sections |
| Tui.KindFilter | molprisma/interface/tui.py:213-222 | the built predicate accepts a line iff it is NONE, or it is META, ATOM or HETE and that kind's flag is on |
| Tui.FilterKey | molprisma/interface/tui.py:213-222 | the viewer's predicate accepts a line iff it is NONE or its kind's toggle is on |
| Tui.FilterKeyByKind | molprisma/interface/tui.py:213-222 | NONE lines always pass; META, ATOM and HETE lines pass exactly when their toggle is on |
| Tui.InitFilterAcceptsAll | molprisma/interface/tui.py:23-33 | the initial `lambda _: True` equals the predicate built from the initial all-on flags, so the whole store is visible |
| Tui.AllHiddenLeavesSentinels | molprisma/interface/tui.py:213-222 | with every toggle off, the visible lines are exactly the NONE lines |
| Tui.SentinelAlwaysVisible | molprisma/interface/tui.py:151 | in a store ending with the sentinel, the sentinel is the last visible line under any toggles, so `count_lines >= 1` |
| Tui.ScrollUp | molprisma/interface/tui.py:145-146 | only the cursor changes; it is never negative, never above its old value for n >= 0, and moves by exactly n unless that passes the top, where it stops at 0 |
| Tui.ScrollDown | molprisma/interface/tui.py:150-152 | only the cursor changes; it never exceeds `count_lines - 2`, and moves by exactly n unless that passes that bound, where it stops |
| Tui.ScrollTop | molprisma/interface/tui.py:83 | `_scroll_up(inf)`: the state that `_scroll_up(n)` reaches for every n at least the cursor, where `max(0, cl - n)` is 0 |
| Tui.ScrollBottom | molprisma/interface/tui.py:84 | `_scroll_down(inf)`: the state that `_scroll_down(n)` reaches for every n taking the cursor to or past `count_lines - 2`, where the min clamps |
| Tui.ScrollRoundTrip | molprisma/interface/tui.py:145-152 | up then down by n, or down then up by n, restores the state while neither move is clamped |
| Tui.ScrollDownOnlySentinel | molprisma/interface/tui.py:150-152 | with only the sentinel visible, scrolling down leaves the cursor at -1 |
| Tui.BottomThenTop | molprisma/interface/tui.py:83-84 | going to the bottom and then to the top gives cursor 0 under any toggles |
| Tui.FindFirst | molprisma/interface/tui.py:228-231 | none iff no element satisfies the predicate; otherwise the position of the first element that does |
| Tui.UpdatePos | molprisma/interface/tui.py:226-231 | only the cursor changes; it is 0 when nothing is visible, otherwise a visible position |
| Tui.UpdatePosLoop | molprisma/interface/tui.py:226-231 | the loop leaves the index of the first accepted yielded line, or 0 when there is none |
| Tui.UpdatePosIsTop | molprisma/interface/tui.py:226-231 | because the walked lines are pre-filtered, repositioning always puts the cursor at 0 |
| Tui.ToggleAll | molprisma/interface/tui.py:161-166 | each of the three flags is negated; colouring, mask and lines are unchanged; the cursor goes to 0 |
| Tui.ToggleMeta | molprisma/interface/tui.py:170-173 | only the metadata flag is negated; the cursor goes to 0 |
| Tui.ToggleAtom | molprisma/interface/tui.py:177-180 | only the ATOM flag is negated; the cursor goes to 0 |
| Tui.ToggleHete | molprisma/interface/tui.py:184-187 | only the HETATM flag is negated; the cursor goes to 0 |
| Tui.ToggleTwice | molprisma/interface/tui.py:161-187 | any toggle applied twice restores every flag and field except the cursor, which is 0 |
| Tui.ToggleLandsOnVisible | molprisma/interface/tui.py:161-231 | after any toggle, the one-line window at the cursor holds a visible line |
| Tui.Step | molprisma/interface/tui.py:64-84 | no action changes the lines, sections, name, window start or mask; scrolls keep flags and colouring; the colour keys set only the colouring; help is a no-op |
| Tui.GetAttrArray | molprisma/interface/tui.py:197-209 | column mode: one pair per text character, `pair_none` for NONE and `pair_help` otherwise; row mode: one pair per mask column, the alternate pair exactly where the mask is set; META and NONE rows are uniform |
| Tui.AttrBandsFollowSections | molprisma/interface/tui.py:197-209 | for a coordinate row coloured by row type, with in-record sections and distinct pairs, a column gets the alternate pair iff it lies in an even-position section |
| Tui.GetGuidesMatrices | molprisma/interface/tui.py:235-244 | one chars row and one attrs row; with at least one guide the attrs row is exactly 2 longer; with none both are empty |
| Tui.GuidesAligned | molprisma/interface/tui.py:239-243 | character k of guide j sits at the same offset in both rows, and its attribute is `pair_help` for a none condition, `pair_help_1` for true and `pair_help_0` for false |
| Tui.GuidesSeparated | molprisma/interface/tui.py:239-243 | each label is followed by two `A_NORMAL` cells in the attrs row, and between two labels the chars row holds the two spaces of the join |
| Tui.Frame | molprisma/interface/tui.py:89-91 | one text row and one attribute row per line of `iter_lines(filter_key, hdisplay)`: row i is that line's text and its `_get_attr_array`; at most `hdisplay` rows for a non-negative cursor, each attribute row as wide as its text (column mode) or the mask (row mode) |

## Left out

- File reading in `ParserPDB.__init__` is left out. `Parse` takes the raw lines, as `readlines` returns them.
- The `MolData(name)` constructor and the derivation of `_sections` are not in `mol_data.py`. `MolStore.New` takes the name and the sections.
- Drawing is left out because it is all calls into the terminal toolkit. This covers `on_start` (colours, pairs, geometry), the `_draw_*` helpers, `draw_text`/`draw_matrix`, and the section table drawn in `on_update`. The strings that table uses (`DisplayIdxRange`) are modelled.
- The key-code dispatch in `on_update` and `should_stop` are left out. The resulting actions are modelled as `Tui.Action` and `Tui.Step`.
- `_help_screen` is an empty stub. `Help` is a no-op step.
- `NLINES_FAST_SCROLL` is derived from the terminal height, so scroll amounts and the display height are parameters.
- The `float("inf")` scroll amounts are modelled as the `Top` and `Bottom` actions. `ScrollTop` and `ScrollBottom` are shown equal to every integer scroll that is large enough.
- The `molsimple` constants `LENGTH_RECORD` and `PDB_CONSTANTS` are parameters, not modelled data.
- `str.strip` is modelled for ASCII whitespace only. Non-ASCII Unicode whitespace is not stripped.
- The `ValueError("Unknown MolKind")` branches cannot happen, because the kind is a closed datatype.
- `pad_lines` mutates line objects that the full, metadata and data lists share. This is modelled as padding all three lists to the width of the full list.
- molprisma/tui.py is an older UI stub and is not part of this model.
- molprisma/__main__.py and main.py are entry-point glue and are not part of this model.
- molprisma/__init__.py holds only imports and is not part of this model.
- setup.py is packaging and is not part of this model.
