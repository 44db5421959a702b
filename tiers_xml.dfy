/**
 * The result file handed back to ELAN: an XML declaration, a `<TIERS>` root
 * and, per speaker in dictionary order, a `<TIER>` holding one `<span>` per
 * turn. The file is modelled as the lines the script writes, each a `Line`
 * whose exact text `Render` gives.
 */
module TiersXml {
  import opened Text
  import opened Diarization

  const NamePrefix: string := "PyannoteAudio_"

  /** A time in milliseconds as `f"{seconds:.3f}"` renders it. */
  function FormatSeconds(ms: nat): string {
    NatToDecimal(ms / 1000) + "." + PadDigits(ms % 1000, 3)
  }

  /**
   * The rendering is whole seconds, a point and three digits of milliseconds,
   * and reading those digits back gives the time written.
   */
  lemma FormatSecondsValue(ms: nat)
    ensures var f := FormatSeconds(ms);
      && |f| >= 5 && f[|f| - 4] == '.'
      && AllDigits(f[..|f| - 4]) && AllDigits(f[|f| - 3..])
      && DigitsValue(f[..|f| - 4]) * 1000 + DigitsValue(f[|f| - 3..]) == ms
  {
    var f := FormatSeconds(ms);
    var whole, frac := NatToDecimal(ms / 1000), PadDigits(ms % 1000, 3);
    assert f[..|f| - 4] == whole && f[|f| - 3..] == frac;
    NatToDecimalValue(ms / 1000);
    PadDigitsValue(ms % 1000, 3);
  }

  /** The tier's name: the speaker itself after verification, otherwise prefixed. */
  function TierName(speaker: string, verification: bool): string {
    if verification then speaker else NamePrefix + speaker
  }

  /**
   * With the flag fixed, two speakers share a tier name only if they are the
   * same speaker, and the speaker can be read back from the name.
   */
  lemma TierNameDistinct(a: string, b: string, verification: bool)
    ensures TierName(a, verification) == TierName(b, verification) <==> a == b
    ensures !verification ==> var name := TierName(a, false);
      NamePrefix <= name && name[|NamePrefix|..] == a
  {
    if !verification && TierName(a, false) == TierName(b, false) {
      assert a == TierName(a, false)[|NamePrefix|..];
    }
  }

  /** One write of the result file. */
  datatype Line =
    | Declaration
    | TiersOpen
    | TierOpen(speaker: string, verified: bool)
    | Span(turn: Interval)
    | TierClose
    | TiersClose

  const DeclarationText: string := "<?xml version=\"1.0\" encoding=\"UTF-8\"?>"
  /** The root element's opening tag written at lines 312-313: the concatenation of these pieces. */
  const TiersOpenPieces: seq<string> := [
    "<TIERS xmlns:xsi", "=\"http://www.w3.", "org/2001/XMLSche", "ma-instance\" xsi",
    ":noNamespaceSche", "maLocation=\"file", ":avatech-tiers.x", "sd\">"]
  const TiersOpenText: string := Concat(TiersOpenPieces)

  function Concat(pieces: seq<string>): string {
    if pieces == [] then [] else Concat(pieces[..|pieces| - 1]) + pieces[|pieces| - 1]
  }
  const TierCloseText: string := "</TIER>"
  const TiersCloseText: string := "</TIERS>"

  /** The exact text of each write. */
  function Render(line: Line): string {
    match line
    case Declaration => DeclarationText + "\n"
    case TiersOpen => TiersOpenText + "\n"
    case TierOpen(speaker, verified) => TierOpenText + TierName(speaker, verified) + TierOpenEndText + "\n"
    case Span(turn) =>
      SpanOpenText + FormatSeconds(turn.0) + SpanMidText + FormatSeconds(turn.1) + SpanEndText + "\n"
    case TierClose => TierCloseText + "\n"
    case TiersClose => TiersCloseText + "\n"
  }

  /** No line break anywhere in `s`. */
  predicate NoNewline(s: string) {
    '\n' !in s
  }

  /** `t` is exactly one line of the file: it ends in its only line break. */
  predicate OneLine(t: string) {
    t != [] && t[|t| - 1] == '\n' && NoNewline(t[..|t| - 1])
  }

  lemma NoNewlineAppend(a: string, b: string)
    requires NoNewline(a) && NoNewline(b)
    ensures NoNewline(a + b)
  {
  }

  /** A text without line breaks followed by one line break is one line. */
  lemma EndLine(body: string)
    requires NoNewline(body)
    ensures OneLine(body + "\n")
  {
    assert (body + "\n")[..|body|] == body;
  }

  lemma FormatSecondsNoNewline(ms: nat)
    ensures NoNewline(FormatSeconds(ms))
  {
    var f := FormatSeconds(ms);
    FormatSecondsValue(ms);
    forall i | 0 <= i < |f|
      ensures f[i] != '\n'
    {
      if i < |f| - 4 {
        assert f[i] == f[..|f| - 4][i];
      } else if |f| - 4 < i {
        assert f[i] == f[|f| - 3..][i - (|f| - 3)];
      }
    }
    assert '\n' !in f;
  }

  const SpanOpenText: string := "    <span start=\""
  const SpanMidText: string := "\" end=\""
  const SpanEndText: string := "\"><v></v></span>"
  const TierOpenText: string := "<TIER columns=\""
  const TierOpenEndText: string := "\">"

  lemma SpanOneLine(turn: Interval)
    ensures OneLine(Render(Span(turn)))
  {
    var a, b := FormatSeconds(turn.0), FormatSeconds(turn.1);
    FormatSecondsNoNewline(turn.0);
    FormatSecondsNoNewline(turn.1);
    assert NoNewline(SpanOpenText) && NoNewline(SpanMidText) && NoNewline(SpanEndText);
    NoNewlineAppend(SpanOpenText, a);
    NoNewlineAppend(SpanOpenText + a, SpanMidText);
    NoNewlineAppend(SpanOpenText + a + SpanMidText, b);
    NoNewlineAppend(SpanOpenText + a + SpanMidText + b, SpanEndText);
    EndLine(SpanOpenText + a + SpanMidText + b + SpanEndText);
  }

  lemma TierOpenOneLine(speaker: string, verification: bool)
    requires NoNewline(speaker)
    ensures OneLine(Render(TierOpen(speaker, verification)))
  {
    var name := TierName(speaker, verification);
    assert NoNewline(NamePrefix);
    NoNewlineAppend(NamePrefix, speaker);
    assert NoNewline(TierOpenText) && NoNewline(TierOpenEndText);
    NoNewlineAppend(TierOpenText, name);
    NoNewlineAppend(TierOpenText + name, TierOpenEndText);
    EndLine(TierOpenText + name + TierOpenEndText);
  }

  lemma {:induction false} ConcatNoNewline(pieces: seq<string>)
    requires forall k :: 0 <= k < |pieces| ==> NoNewline(pieces[k])
    ensures NoNewline(Concat(pieces))
  {
    if pieces != [] {
      ConcatNoNewline(pieces[..|pieces| - 1]);
      NoNewlineAppend(Concat(pieces[..|pieces| - 1]), pieces[|pieces| - 1]);
    }
  }

  lemma TiersOpenNoNewline()
    ensures NoNewline(TiersOpenText)
  {
    forall k | 0 <= k < |TiersOpenPieces|
      ensures NoNewline(TiersOpenPieces[k])
    {
      if k == 0 { assert NoNewline(TiersOpenPieces[0]); }
      else if k == 1 { assert NoNewline(TiersOpenPieces[1]); }
      else if k == 2 { assert NoNewline(TiersOpenPieces[2]); }
      else if k == 3 { assert NoNewline(TiersOpenPieces[3]); }
      else if k == 4 { assert NoNewline(TiersOpenPieces[4]); }
      else if k == 5 { assert NoNewline(TiersOpenPieces[5]); }
      else if k == 6 { assert NoNewline(TiersOpenPieces[6]); }
      else { assert NoNewline(TiersOpenPieces[7]); }
    }
    ConcatNoNewline(TiersOpenPieces);
  }

  /**
   * Every write is exactly one line of the file, as long as the speaker label
   * it carries has no line break of its own.
   */
  lemma RenderOneLine(line: Line)
    requires line.TierOpen? ==> NoNewline(line.speaker)
    ensures OneLine(Render(line))
  {
    match line
    case Declaration =>
      EndLine(DeclarationText);
    case TiersOpen =>
      TiersOpenNoNewline();
      EndLine(TiersOpenText);
    case TierOpen(speaker, verified) =>
      TierOpenOneLine(speaker, verified);
    case Span(turn) =>
      SpanOneLine(turn);
    case TierClose =>
      EndLine(TierCloseText);
    case TiersClose =>
      EndLine(TiersCloseText);
  }

  /** `f` applied to each element, in order. */
  function MapSeq<A, B>(f: A -> B, s: seq<A>): (r: seq<B>)
    ensures |r| == |s|
  {
    if s == [] then [] else MapSeq(f, s[..|s| - 1]) + [f(s[|s| - 1])]
  }

  lemma MapSeqSnoc<A, B>(f: A -> B, s: seq<A>, x: A)
    ensures MapSeq(f, s + [x]) == MapSeq(f, s) + [f(x)]
  {
    assert (s + [x])[..|s|] == s;
  }

  lemma {:induction false} MapSeqAppend<A, B>(f: A -> B, s: seq<A>, t: seq<A>)
    ensures MapSeq(f, s + t) == MapSeq(f, s) + MapSeq(f, t)
  {
    if t == [] {
      assert s + t == s;
    } else {
      var init := t[..|t| - 1];
      MapSeqAppend(f, s, init);
      assert s + t == (s + init) + [t[|t| - 1]];
      MapSeqSnoc(f, s + init, t[|t| - 1]);
    }
  }

  /** Each element is mapped on its own. */
  lemma {:induction false} MapSeqAt<A, B>(f: A -> B, s: seq<A>, i: nat)
    requires i < |s|
    ensures MapSeq(f, s)[i] == f(s[i])
  {
    if i < |s| - 1 {
      MapSeqAt(f, s[..|s| - 1], i);
    }
  }

  /** The text of a sequence of writes. */
  function RenderAll(lines: seq<Line>): seq<string> {
    MapSeq(Render, lines)
  }

  function SpanLines(turns: seq<Interval>): (lines: seq<Line>)
    ensures |lines| == |turns|
    ensures forall j :: 0 <= j < |turns| ==> lines[j] == Span(turns[j])
  {
    if turns == [] then [] else SpanLines(turns[..|turns| - 1]) + [Span(turns[|turns| - 1])]
  }

  /** What is written for one speaker. */
  function TierBlock(speaker: string, turns: seq<Interval>, verification: bool): seq<Line> {
    [TierOpen(speaker, verification)] + SpanLines(turns) + [TierClose]
  }

  /** What is written for the first `n` speakers, in dictionary order. */
  function Blocks(speakers: SpeakerTable, verification: bool, n: nat): seq<Line>
    requires speakers.HasTurns() && n <= |speakers.keys|
  {
    if n == 0 then []
    else
      var last := speakers.keys[n - 1];
      Blocks(speakers, verification, n - 1) + TierBlock(last, speakers.turns[last], verification)
  }

  /** The whole file. */
  function Document(speakers: SpeakerTable, verification: bool): seq<Line>
    requires speakers.HasTurns()
  {
    [Declaration, TiersOpen] + Blocks(speakers, verification, |speakers.keys|) + [TiersClose]
  }

  lemma AppendAssociative<T>(a: seq<T>, b: seq<T>, c: seq<T>)
    ensures (a + b) + c == a + (b + c)
  {
  }

  /** Writes one speaker's tier: the opening line, a span per turn, the closing line. */
  method WriteTier(speaker: string, turns: seq<Interval>, verification: bool) returns (writes: seq<string>)
    ensures writes == RenderAll(TierBlock(speaker, turns, verification))
  {
    var open := TierOpen(speaker, verification);
    writes := [Render(open)];
    assert MapSeq(Render, []) == [];
    MapSeqSnoc(Render, [], open);
    var j := 0;
    while j < |turns|
      invariant 0 <= j <= |turns|
      invariant writes == RenderAll([open] + SpanLines(turns[..j]))
    {
      assert turns[..j + 1][..j] == turns[..j];
      assert [open] + SpanLines(turns[..j + 1]) == [open] + SpanLines(turns[..j]) + [Span(turns[j])];
      MapSeqSnoc(Render, [open] + SpanLines(turns[..j]), Span(turns[j]));
      writes := writes + [Render(Span(turns[j]))];
      j := j + 1;
    }
    assert turns[..|turns|] == turns;
    MapSeqSnoc(Render, [open] + SpanLines(turns), TierClose);
    writes := writes + [Render(TierClose)];
  }

  /** Writes the XML declaration and opens the root element. */
  method WriteHeader() returns (writes: seq<string>)
    ensures writes == RenderAll([Declaration, TiersOpen])
  {
    writes := [Render(Declaration), Render(TiersOpen)];
    MapSeqSnoc(Render, [], Declaration);
    MapSeqSnoc(Render, [Declaration], TiersOpen);
    assert [] + [Declaration] == [Declaration] && [Declaration] + [TiersOpen] == [Declaration, TiersOpen];
  }

  /** Writes the file: the header, then each speaker's tier, then the closing tag. */
  method WriteTiers(speakers: SpeakerTable, verification: bool) returns (writes: seq<string>)
    requires speakers.HasTurns()
    ensures writes == RenderAll(Document(speakers, verification))
    ensures |writes| == |Document(speakers, verification)|
    ensures forall k :: 0 <= k < |writes| ==> writes[k] == Render(Document(speakers, verification)[k])
  {
    var keys := speakers.keys;
    ghost var header := [Declaration, TiersOpen];
    writes := WriteHeader();
    assert header + Blocks(speakers, verification, 0) == header;
    var i := 0;
    while i < |keys|
      invariant 0 <= i <= |keys|
      invariant writes == RenderAll(header + Blocks(speakers, verification, i))
    {
      var tier := WriteTier(keys[i], speakers.turns[keys[i]], verification);
      RenderNextTier(speakers, verification, header, i);
      writes := writes + tier;
      i := i + 1;
    }
    MapSeqSnoc(Render, header + Blocks(speakers, verification, |keys|), TiersClose);
    writes := writes + [Render(TiersClose)];
    forall k | 0 <= k < |writes|
      ensures writes[k] == Render(Document(speakers, verification)[k])
    {
      MapSeqAt(Render, Document(speakers, verification), k);
    }
  }

  /** The text after one more speaker is the text before it followed by that speaker's tier. */
  lemma RenderNextTier(speakers: SpeakerTable, verification: bool, header: seq<Line>, i: nat)
    requires speakers.HasTurns() && i < |speakers.keys|
    ensures var k := speakers.keys[i];
      RenderAll(header + Blocks(speakers, verification, i + 1))
        == RenderAll(header + Blocks(speakers, verification, i)) + RenderAll(TierBlock(k, speakers.turns[k], verification))
  {
    var done := Blocks(speakers, verification, i);
    var k := speakers.keys[i];
    var block := TierBlock(k, speakers.turns[k], verification);
    MapSeqAppend(Render, header + done, block);
    AppendAssociative(header, done, block);
  }

  /** The blocks of the first `n` speakers are a prefix of the blocks of the first `m`. */
  lemma {:induction false} BlocksPrefix(speakers: SpeakerTable, verification: bool, n: nat, m: nat)
    requires speakers.HasTurns() && n <= m <= |speakers.keys|
    ensures Blocks(speakers, verification, n) <= Blocks(speakers, verification, m)
  {
    if n < m {
      BlocksPrefix(speakers, verification, n, m - 1);
    }
  }

  /** Each speaker contributes its spans plus an opening and a closing line. */
  lemma {:induction false} BlocksLength(speakers: SpeakerTable, verification: bool, n: nat)
    requires speakers.HasTurns() && n <= |speakers.keys|
    ensures |Blocks(speakers, verification, n)| == 2 * n + TurnCount(speakers.keys[..n], speakers.turns)
  {
    var keys := speakers.keys;
    if n > 0 {
      BlocksLength(speakers, verification, n - 1);
      assert keys[..n][..n - 1] == keys[..n - 1];
      assert keys[..n][n - 1] == keys[n - 1];
    }
  }

  /** Speaker `i`'s block sits after the blocks of the speakers before it. */
  lemma BlocksSlice(speakers: SpeakerTable, verification: bool, i: nat)
    requires speakers.HasTurns() && i < |speakers.keys|
    ensures var at := 2 * i + TurnCount(speakers.keys[..i], speakers.turns);
      var block := TierBlock(speakers.keys[i], speakers.turns[speakers.keys[i]], verification);
      var all := Blocks(speakers, verification, |speakers.keys|);
      && at + |block| <= |all|
      && forall k :: 0 <= k < |block| ==> all[at + k] == block[k]
  {
    BlocksPrefix(speakers, verification, i + 1, |speakers.keys|);
    BlocksLength(speakers, verification, i);
    var all := Blocks(speakers, verification, |speakers.keys|);
    var before := Blocks(speakers, verification, i);
    var block := TierBlock(speakers.keys[i], speakers.turns[speakers.keys[i]], verification);
    var upto := Blocks(speakers, verification, i + 1);
    assert upto == before + block;
    forall k | 0 <= k < |block|
      ensures all[|before| + k] == block[k]
    {
      assert all[|before| + k] == upto[|before| + k];
    }
  }

  /** A speaker's block: the opening line, the spans in order, the closing line. */
  lemma TierBlockAt(speaker: string, turns: seq<Interval>, verification: bool)
    ensures var block := TierBlock(speaker, turns, verification);
      && |block| == |turns| + 2
      && block[0] == TierOpen(speaker, verification)
      && (forall j :: 0 <= j < |turns| ==> block[1 + j] == Span(turns[j]))
      && block[1 + |turns|] == TierClose
  {
    var spans := SpanLines(turns);
    var block := [TierOpen(speaker, verification)] + spans + [TierClose];
    forall j | 0 <= j < |turns|
      ensures block[1 + j] == Span(turns[j])
    {
      assert block[1 + j] == spans[j];
    }
  }

  /**
   * Where speaker `i`'s tier sits in the file, and what it holds: the opening
   * line for that speaker, one span per turn in order, and the closing line.
   */
  lemma DocumentTier(speakers: SpeakerTable, verification: bool, i: nat, j: nat)
    requires speakers.HasTurns() && i < |speakers.keys|
    ensures var keys := speakers.keys;
      var doc := Document(speakers, verification);
      var at := 2 + 2 * i + TurnCount(keys[..i], speakers.turns);
      var turns := speakers.turns[keys[i]];
      && at + |turns| + 1 < |doc|
      && doc[at] == TierOpen(keys[i], verification)
      && (j < |turns| ==> doc[at + 1 + j] == Span(turns[j]))
      && doc[at + 1 + |turns|] == TierClose
  {
    var keys := speakers.keys;
    var turns := speakers.turns[keys[i]];
    var at := 2 * i + TurnCount(keys[..i], speakers.turns);
    var n := |turns|;
    var doc := Document(speakers, verification);
    var all := Blocks(speakers, verification, |keys|);
    var block := TierBlock(keys[i], turns, verification);
    BlocksSlice(speakers, verification, i);
    TierBlockAt(keys[i], turns, verification);
    DocumentBlocks(speakers, verification, at);
    assert doc[2 + at] == all[at] == block[0];
    DocumentBlocks(speakers, verification, at + 1 + n);
    assert doc[2 + at + 1 + n] == all[at + 1 + n] == block[1 + n];
    if j < n {
      DocumentBlocks(speakers, verification, at + 1 + j);
      assert doc[2 + at + 1 + j] == all[at + 1 + j] == block[1 + j];
    }
  }

  /** Past the two header lines, the file is the speakers' blocks. */
  lemma DocumentBlocks(speakers: SpeakerTable, verification: bool, x: nat)
    requires speakers.HasTurns() && x < |Blocks(speakers, verification, |speakers.keys|)|
    ensures var all := Blocks(speakers, verification, |speakers.keys|);
      |Document(speakers, verification)| == |all| + 3 && Document(speakers, verification)[2 + x] == all[x]
  {
  }

  /** The file begins with the declaration and the root and ends by closing the root. */
  lemma DocumentFrame(speakers: SpeakerTable, verification: bool)
    requires speakers.HasTurns()
    ensures var doc := Document(speakers, verification);
      && |doc| == 3 + 2 * |speakers.keys| + TurnCount(speakers.keys, speakers.turns)
      && doc[0] == Declaration && doc[1] == TiersOpen && doc[|doc| - 1] == TiersClose
  {
    BlocksLength(speakers, verification, |speakers.keys|);
    assert speakers.keys[..|speakers.keys|] == speakers.keys;
  }

  /** The speakers whose tiers are written: grouped, then renamed when verification is on. */
  function SpeakersToWrite(tracks: seq<Track>, verification: bool, labels: seq<string>, refIds: seq<string>, dists: seq<seq<real>>): SpeakerTable
    requires verification ==> WellShaped(Grouped(tracks), labels, refIds, dists)
  {
    if verification then Identified(Grouped(tracks), labels, refIds, dists) else Grouped(tracks)
  }

  /**
   * The post-processing as the script runs it: group the pipeline's tracks,
   * rename the speakers when reference voices were given, write the tiers.
   */
  method WriteOutput(tracks: seq<Track>, verification: bool, labels: seq<string>, refIds: seq<string>, dists: seq<seq<real>>)
    returns (writes: seq<string>)
    requires verification ==> WellShaped(Grouped(tracks), labels, refIds, dists)
    ensures writes == RenderAll(Document(SpeakersToWrite(tracks, verification, labels, refIds, dists), verification))
  {
    var speakers := GroupBySpeaker(tracks);
    if verification {
      speakers := IdentifySpeakers(speakers, labels, refIds, dists);
    }
    writes := WriteTiers(speakers, verification);
  }

  /**
   * Without verification the file has one tier per distinct speaker label and
   * one span per track, so its length is fixed by the tracks alone.
   */
  lemma UnverifiedOutputSize(tracks: seq<Track>, labels: seq<string>, refIds: seq<string>, dists: seq<seq<real>>)
    ensures var doc := Document(SpeakersToWrite(tracks, false, labels, refIds, dists), false);
      |doc| == 3 + 2 * |Grouped(tracks).keys| + |tracks|
  {
    DocumentFrame(Grouped(tracks), false);
    GroupedTurnCount(tracks);
  }
}
