/**
 One classified text record of a PDB file and the fixed-column extraction
 of a named field from it. The column table (`PDB_CONSTANTS`, a map from
 `<FIELD>_START` / `<FIELD>_END` to a column) is a parameter.
 */
module MolLines {
  import opened PyStr

  /** ATOM and HETATM coordinate records, everything else (META), and the
      end-of-data sentinel (NONE). */
  datatype MolKind = ATOM | HETE | META | NONE

  datatype MolLine = MolLine(text: string, kind: MolKind)

  /** Record kinds that carry coordinate fields. */
  predicate HasFields(kind: MolKind) {
    kind == ATOM || kind == HETE
  }

  function StartKey(name: string): string { name + "_START" }
  function EndKey(name: string): string { name + "_END" }

  /** `MolLine.get_section_data`: the trimmed text between the field's
      start and end columns, or none for a record without fields or a
      field the table does not bound on both sides. */
  function GetSectionData(line: MolLine, constants: map<string, int>, name: string): (r: Option<string>)
    ensures r.Some? <==> HasFields(line.kind) && StartKey(name) in constants && EndKey(name) in constants
    ensures r.Some? ==> |r.value| <= |line.text|
    ensures r.Some? ==> r.value == [] || (!IsSpace(r.value[0]) && !IsSpace(r.value[|r.value| - 1]))
    ensures r.Some? && 0 <= constants[StartKey(name)] && 0 <= constants[EndKey(name)] ==>
              |r.value| <= Max(0, constants[EndKey(name)] - constants[StartKey(name)])
  {
    if !HasFields(line.kind) then None
    else if StartKey(name) !in constants || EndKey(name) !in constants then None
    else Some(Strip(Slice(line.text, constants[StartKey(name)], constants[EndKey(name)])))
  }

  /** For non-negative bounds the extracted value is a run of the text
      inside the field's columns (clamped to the text, as Python slicing
      does), with only whitespace between it and either column bound. */
  lemma SectionDataIsColumns(line: MolLine, constants: map<string, int>, name: string)
      returns (s: nat, e: nat, off: nat)
    requires HasFields(line.kind) && StartKey(name) in constants && EndKey(name) in constants
    requires 0 <= constants[StartKey(name)] <= constants[EndKey(name)]
    ensures s == Min(constants[StartKey(name)], |line.text|)
    ensures e == Min(constants[EndKey(name)], |line.text|)
    ensures GetSectionData(line, constants, name).Some?
    ensures var r := GetSectionData(line, constants, name).value;
            && s + off + |r| <= e
            && r == line.text[s + off..s + off + |r|]
            && SpaceBetween(line.text, s, s + off)
            && SpaceBetween(line.text, s + off + |r|, e)
  {
    var a, b := constants[StartKey(name)], constants[EndKey(name)];
    s := Min(a, |line.text|);
    e := Min(b, |line.text|);
    var piece := line.text[s..e];
    assert Slice(line.text, a, b) == piece;
    assert GetSectionData(line, constants, name) == Some(Strip(piece));
    off := StripOffset(piece);
    StripWithin(line.text, s, e, off, Strip(piece));
  }

  /** A line shorter than the field's start column yields an empty value
      rather than an error. */
  lemma SectionDataOfShortLine(line: MolLine, constants: map<string, int>, name: string)
    requires HasFields(line.kind) && StartKey(name) in constants && EndKey(name) in constants
    requires |line.text| <= constants[StartKey(name)] && 0 <= constants[EndKey(name)]
    ensures GetSectionData(line, constants, name) == Some("")
  {
  }
}
