/**
 Turning the raw lines of a PDB file into the padded record store:
 classification by record-name prefix, one end-of-data sentinel, and
 padding to a common width. Reading the file is not modelled; the raw
 lines (as `readlines` returns them, newline included) are a parameter.
 */
module ParserPdb {
  import opened PyStr
  import opened MolLines
  import opened MolStore
  import opened PdbSections

  const KEYWORD_ATOM: string := "ATOM"
  const KEYWORD_HETA: string := "HETATM"

  /** The inner `get_kind` of `ParserPDB.parse`: "ATOM" is tested before
      "HETATM", and anything else is metadata. */
  function GetKind(line: string): (k: MolKind)
    ensures k != NONE
    ensures k == ATOM <==> StartsWith(line, KEYWORD_ATOM)
    ensures k == HETE <==> !StartsWith(line, KEYWORD_ATOM) && StartsWith(line, KEYWORD_HETA)
    ensures k == META <==> !StartsWith(line, KEYWORD_ATOM) && !StartsWith(line, KEYWORD_HETA)
  {
    if StartsWith(line, KEYWORD_ATOM) then ATOM
    else if StartsWith(line, KEYWORD_HETA) then HETE
    else META
  }

  /** One record per raw line: trailing newlines removed, kind taken from
      the raw line. */
  function Classify(raw: seq<string>): (r: seq<MolLine>)
    ensures |r| == |raw|
    ensures forall i :: 0 <= i < |raw| ==> r[i] == MolLine(RStripChar(raw[i], '\n'), GetKind(raw[i]))
  {
    seq(|raw|, i requires 0 <= i < |raw| => MolLine(RStripChar(raw[i], '\n'), GetKind(raw[i])))
  }

  /** The end-of-data record appended after the file's lines. */
  const Sentinel: MolLine := MolLine("", NONE)

  /** `ParserPDB.parse`. `MolData(name)` is taken to be an empty store
      whose sections are given. With the sentinel appended the store is
      never empty, so padding cannot fail. */
  function Parse(name: string, sections: seq<PDBSection>, raw: seq<string>): (md: MolData)
    ensures |md.allLines| == |raw| + 1
    ensures md.allLines[|raw|].kind == NONE
    ensures forall i :: 0 <= i < |raw| ==>
              && md.allLines[i].kind == GetKind(raw[i])
              && md.allLines[i].kind != NONE
    ensures md.name == name && md.sections == sections && md.currentLine == 0 && md.pos == 0
  {
    var store := Append(Extend(New(name, sections), Classify(raw)), Sentinel);
    PadLines(store).value
  }

  /** The records before padding: the classified lines and the
      sentinel. */
  function Unpadded(raw: seq<string>): (r: seq<MolLine>)
    ensures |r| == |raw| + 1 && r[|raw|] == Sentinel
    ensures forall i :: 0 <= i < |raw| ==> r[i].text == RStripChar(raw[i], '\n')
  {
    Classify(raw) + [Sentinel]
  }

  lemma ParseIsPaddedUnpadded(name: string, sections: seq<PDBSection>, raw: seq<string>)
    ensures var md := Parse(name, sections, raw);
            var w := MaxTextLen(Unpadded(raw));
            && PaddedFrom(Unpadded(raw), md.allLines, w)
            && (forall i :: 0 <= i < |md.allLines| ==> |md.allLines[i].text| == w)
  {
    var store := Append(Extend(New(name, sections), Classify(raw)), Sentinel);
    assert store.allLines == Unpadded(raw);
  }

  /** After parsing, every record (the sentinel included) is as wide as
      the longest newline-stripped raw line, or empty when there is
      none. */
  lemma ParsePadsToLongest(name: string, sections: seq<PDBSection>, raw: seq<string>) returns (width: nat)
    ensures forall i :: 0 <= i < |raw| ==> |RStripChar(raw[i], '\n')| <= width
    ensures width == 0 || exists i :: 0 <= i < |raw| && |RStripChar(raw[i], '\n')| == width
    ensures forall i :: 0 <= i < |raw| + 1 ==> |Parse(name, sections, raw).allLines[i].text| == width
  {
    var lines := Unpadded(raw);
    width := MaxTextLen(lines);
    ParseIsPaddedUnpadded(name, sections, raw);
    assert lines[|raw|].text == "";
    if width != 0 {
      var j :| 0 <= j < |lines| && |lines[j].text| == width;
      assert j < |raw|;
    }
  }

  /** Each parsed record's text is its newline-stripped raw line followed
      by spaces only. */
  lemma ParseKeepsText(name: string, sections: seq<PDBSection>, raw: seq<string>, i: nat)
    requires i < |raw|
    ensures var text := Parse(name, sections, raw).allLines[i].text;
            var t := RStripChar(raw[i], '\n');
            && |t| <= |text| && text[..|t|] == t
            && (forall k :: |t| <= k < |text| ==> text[k] == ' ')
  {
    ParseIsPaddedUnpadded(name, sections, raw);
    assert Unpadded(raw)[i].text == RStripChar(raw[i], '\n');
  }

  /** The sentinel comes out of padding as spaces only. */
  lemma ParseSentinelBlank(name: string, sections: seq<PDBSection>, raw: seq<string>)
    ensures var text := Parse(name, sections, raw).allLines[|raw|].text;
            forall k :: 0 <= k < |text| ==> text[k] == ' '
  {
    ParseIsPaddedUnpadded(name, sections, raw);
    assert Unpadded(raw)[|raw|].text == "";
  }

  /** The sentinel is the only NONE record, and it comes last. */
  lemma ParseSentinelUnique(name: string, sections: seq<PDBSection>, raw: seq<string>)
    ensures var md := Parse(name, sections, raw);
            forall i :: 0 <= i < |md.allLines| ==> (md.allLines[i].kind == NONE <==> i == |md.allLines| - 1)
  {
  }

  /** An empty file still parses: the store holds the empty sentinel
      alone. */
  lemma ParseEmpty(name: string, sections: seq<PDBSection>)
    ensures Parse(name, sections, []).allLines == [Sentinel]
  {
    var md := Parse(name, sections, []);
    assert |md.allLines| == 1;
    assert MaxTextLen([Sentinel]) == 0;
  }

  /** A prefix without newlines starts the raw line exactly when it
      starts the newline-stripped one. */
  lemma StartsWithStripped(line: string, p: string)
    requires forall k :: 0 <= k < |p| ==> p[k] != '\n'
    ensures StartsWith(RStripChar(line, '\n'), p) <==> StartsWith(line, p)
  {
    var t := RStripChar(line, '\n');
    if StartsWith(t, p) {
      assert line[..|p|] == t[..|p|];
    }
    if StartsWith(line, p) && |p| <= |t| {
      assert t[..|p|] == line[..|p|];
    }
  }

  /** Classifying the raw line or the newline-stripped one gives the same
      kind, because neither keyword contains a newline. */
  lemma GetKindIgnoresNewlines(line: string)
    ensures GetKind(RStripChar(line, '\n')) == GetKind(line)
  {
    StartsWithStripped(line, KEYWORD_ATOM);
    StartsWithStripped(line, KEYWORD_HETA);
  }
}
