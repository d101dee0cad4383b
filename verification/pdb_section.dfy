/**
 A named fixed-column field of a PDB record, `[start, end[`, and the two
 ways the viewer prints its column range.
 */
module PdbSections {
  import opened PyStr

  datatype PDBSection = PDBSection(name: string, start: int, end: int)

  /** `PDBSection.display_idx_range`: the half-open zero-based range
      `[ss,ee[`, or the closed one-based range `(ss..ee)`, each number
      printed with `{:02}`. */
  function DisplayIdxRange(section: PDBSection, zeroIndexing: bool): (r: string)
    ensures zeroIndexing ==> |r| >= 7 && r[0] == '[' && r[|r| - 1] == '['
    ensures !zeroIndexing ==> |r| >= 8 && r[0] == '(' && r[|r| - 1] == ')'
  {
    if zeroIndexing then "[" + Format02(section.start) + "," + Format02(section.end) + "["
    else "(" + Format02(section.start + 1) + ".." + Format02(section.end) + ")"
  }

  /** Where the pieces of `open + a + sep + b + close` sit. */
  lemma Layout(open: string, a: string, sep: string, b: string, close: string)
    requires |open| == 1 && |close| == 1
    ensures var r := open + a + sep + b + close;
            var c := 1 + |a|;
            && |r| == c + |sep| + |b| + 1
            && r[0] == open[0] && r[|r| - 1] == close[0]
            && r[1..c] == a && r[c..c + |sep|] == sep && r[c + |sep|..|r| - 1] == b
  {
    var r := open + a + sep + b + close;
    var c := 1 + |a|;
    assert r == open + (a + (sep + (b + close)));
    assert r[1..c] == a;
    assert r[c..c + |sep|] == sep;
    assert r[c + |sep|..|r| - 1] == b;
  }

  /** For non-negative bounds the zero-based rendering reads back as the
      section's start and end, split at the only comma. */
  lemma ZeroIndexedReadsBack(section: PDBSection) returns (c: nat)
    requires 0 <= section.start && 0 <= section.end
    ensures var r := DisplayIdxRange(section, true);
            && 1 <= c < |r| - 1
            && r[0] == '[' && r[c] == ',' && r[|r| - 1] == '['
            && AllDigits(r[1..c]) && DecimalValue(r[1..c]) == section.start
            && AllDigits(r[c + 1..|r| - 1]) && DecimalValue(r[c + 1..|r| - 1]) == section.end
  {
    var a, b := Format02(section.start), Format02(section.end);
    c := 1 + |a|;
    Format02RoundTrip(section.start);
    Format02RoundTrip(section.end);
    var r := DisplayIdxRange(section, true);
    assert r == "[" + a + "," + b + "[";
    Layout("[", a, ",", b, "[");
    assert r[1..c] == a && r[c + 1..|r| - 1] == b;
  }

  /** For non-negative bounds the one-based rendering reads back as the
      start shifted by one and the end unchanged, split at the "..". */
  lemma OneIndexedReadsBack(section: PDBSection) returns (c: nat)
    requires 0 <= section.start + 1 && 0 <= section.end
    ensures var r := DisplayIdxRange(section, false);
            && 1 <= c && c + 2 < |r|
            && r[0] == '(' && r[c] == '.' && r[c + 1] == '.' && r[|r| - 1] == ')'
            && AllDigits(r[1..c]) && DecimalValue(r[1..c]) == section.start + 1
            && AllDigits(r[c + 2..|r| - 1]) && DecimalValue(r[c + 2..|r| - 1]) == section.end
  {
    var a, b := Format02(section.start + 1), Format02(section.end);
    c := 1 + |a|;
    Format02RoundTrip(section.start + 1);
    Format02RoundTrip(section.end);
    var r := DisplayIdxRange(section, false);
    assert r == "(" + a + ".." + b + ")";
    Layout("(", a, "..", b, ")");
    assert r[1..c] == a && r[c + 2..|r| - 1] == b;
    assert DecimalValue(r[1..c]) == section.start + 1;
    assert DecimalValue(r[c + 2..|r| - 1]) == section.end;
  }

  /** Up to column 99 both renderings have a fixed width: 7 characters
      zero-based and 8 one-based, each number taking two digits. */
  lemma DisplayWidth(section: PDBSection)
    ensures 0 <= section.start <= 99 && 0 <= section.end <= 99 ==>
              |DisplayIdxRange(section, true)| == 7
    ensures 0 <= section.start + 1 <= 99 && 0 <= section.end <= 99 ==>
              |DisplayIdxRange(section, false)| == 8
  {
  }
}
