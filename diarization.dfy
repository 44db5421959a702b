/**
 * What the script does with the diarization pipeline's output: it groups the
 * speech turns by speaker label and, when reference speakers were supplied,
 * renames each speaker after the reference voice nearest to it. The pipeline's
 * tracks, labels and the cosine distances between embeddings are inputs here.
 */
module Diarization {
  import opened Wrappers

  /** A time interval `(start, end)` in milliseconds. */
  type Interval = (nat, nat)

  /** One track of the pipeline's annotation: a turn and the speaker label it carries. */
  datatype Track = Track(start: nat, end: nat, speaker: string)

  /**
   * A Python dictionary from speaker to turns: `keys` is the insertion order
   * the script later writes the tiers in, `turns` the values.
   */
  datatype SpeakerTable = SpeakerTable(keys: seq<string>, turns: map<string, seq<Interval>>) {

    /** Every key listed has its turns. */
    ghost predicate HasTurns() {
      forall i :: 0 <= i < |keys| ==> keys[i] in turns
    }

    /** No key is listed twice, and every key listed has its turns. */
    ghost predicate Valid() {
      && (forall i, j :: 0 <= i < j < |keys| ==> keys[i] != keys[j])
      && HasTurns()
    }

    /** Every key of `turns` is listed. */
    ghost predicate ListsAll() {
      forall k :: k in turns ==> k in keys
    }

    /** `d[k] = v`: a new key goes to the end, an existing one keeps its place. */
    function Insert(k: string, v: seq<Interval>): (d: SpeakerTable)
      requires Valid()
      ensures d.Valid()
      ensures d.turns == turns[k := v]
      ensures k in turns ==> d.keys == keys
      ensures k !in turns ==> d.keys == keys + [k]
    {
      if k in turns then SpeakerTable(keys, turns[k := v]) else SpeakerTable(keys + [k], turns[k := v])
    }
  }

  const EmptyTable := SpeakerTable([], map[])

  // ---------------------------------------------------------------------------
  // Grouping the turns by speaker
  // ---------------------------------------------------------------------------

  /** Some track carries `name`. */
  predicate HasLabel(tracks: seq<Track>, name: string) {
    exists i :: 0 <= i < |tracks| && tracks[i].speaker == name
  }

  /** The turns of `name`, in track order. */
  function TurnsOf(tracks: seq<Track>, name: string): seq<Interval> {
    if tracks == [] then []
    else
      var t := tracks[|tracks| - 1];
      TurnsOf(tracks[..|tracks| - 1], name) + (if t.speaker == name then [(t.start, t.end)] else [])
  }

  /** The `speakers` dictionary after the grouping loop has seen `tracks`. */
  function Grouped(tracks: seq<Track>): (d: SpeakerTable)
    ensures d.Valid()
  {
    if tracks == [] then EmptyTable
    else
      var d := Grouped(tracks[..|tracks| - 1]);
      var t := tracks[|tracks| - 1];
      var sofar := if t.speaker in d.turns then d.turns[t.speaker] else [];
      d.Insert(t.speaker, sofar + [(t.start, t.end)])
  }

  /** Writing a key twice leaves the second value, in the place the first write gave it. */
  lemma InsertOverwrites(d: SpeakerTable, k: string, u: seq<Interval>, v: seq<Interval>)
    requires d.Valid()
    ensures d.Insert(k, u).Insert(k, v) == d.Insert(k, v)
  {
    assert d.turns[k := u][k := v] == d.turns[k := v];
  }

  /** Writing a key keeps every key listed. */
  lemma InsertListsAll(d: SpeakerTable, k: string, v: seq<Interval>)
    requires d.Valid() && d.ListsAll()
    ensures d.Insert(k, v).ListsAll()
  {
  }

  /** One more track adds its turn to its speaker's list. */
  lemma GroupedStep(tracks: seq<Track>, i: nat)
    requires i < |tracks|
    ensures var d := Grouped(tracks[..i]);
      var t := tracks[i];
      var sofar := if t.speaker in d.turns then d.turns[t.speaker] else [];
      Grouped(tracks[..i + 1]) == d.Insert(t.speaker, sofar + [(t.start, t.end)])
  {
    assert tracks[..i + 1][..i] == tracks[..i];
  }

  /** Groups the tracks by speaker, appending each turn to its speaker's list. */
  method GroupBySpeaker(tracks: seq<Track>) returns (speakers: SpeakerTable)
    ensures speakers == Grouped(tracks)
  {
    speakers := EmptyTable;
    var i := 0;
    while i < |tracks|
      invariant 0 <= i <= |tracks|
      invariant speakers == Grouped(tracks[..i])
    {
      GroupedStep(tracks, i);
      ghost var before := speakers;
      var t := tracks[i];
      ghost var turn := [(t.start, t.end)];
      if t.speaker !in speakers.turns {
        speakers := speakers.Insert(t.speaker, []);
        InsertOverwrites(before, t.speaker, [], turn);
      }
      ghost var sofar := if t.speaker in before.turns then before.turns[t.speaker] else [];
      assert speakers.turns[t.speaker] == sofar;
      speakers := speakers.Insert(t.speaker, speakers.turns[t.speaker] + [(t.start, t.end)]);
      assert speakers == before.Insert(t.speaker, sofar + turn);
      i := i + 1;
    }
    assert tracks[..|tracks|] == tracks;
  }

  /** The speakers are exactly the labels that occur, each holding its own turns in track order. */
  lemma {:induction false} GroupedContents(tracks: seq<Track>, name: string)
    ensures name in Grouped(tracks).turns <==> HasLabel(tracks, name)
    ensures name in Grouped(tracks).turns ==> Grouped(tracks).turns[name] == TurnsOf(tracks, name)
  {
    if tracks != [] {
      var init := tracks[..|tracks| - 1];
      GroupedContents(init, name);
      assert forall i :: 0 <= i < |init| ==> init[i] == tracks[i];
      if tracks[|tracks| - 1].speaker != name {
        assert HasLabel(tracks, name) <==> HasLabel(init, name);
      } else {
        assert HasLabel(tracks, name);
        if name !in Grouped(init).turns {
          assert !HasLabel(init, name);
          TurnsOfAbsent(init, name);
        }
      }
    }
  }

  lemma {:induction false} TurnsOfAbsent(tracks: seq<Track>, name: string)
    requires !HasLabel(tracks, name)
    ensures TurnsOf(tracks, name) == []
  {
    if tracks != [] {
      var init := tracks[..|tracks| - 1];
      assert forall i :: 0 <= i < |init| ==> init[i] == tracks[i];
      TurnsOfAbsent(init, name);
    }
  }

  /** The index of the first track carrying `name`. */
  function FirstIndex(tracks: seq<Track>, name: string): (i: nat)
    requires HasLabel(tracks, name)
    ensures i < |tracks| && tracks[i].speaker == name
    ensures forall j :: 0 <= j < i ==> tracks[j].speaker != name
  {
    if tracks[0].speaker == name then 0
    else
      assert HasLabel(tracks[1..], name) by {
        var i :| 0 <= i < |tracks| && tracks[i].speaker == name;
        assert tracks[1..][i - 1] == tracks[i];
      }
      1 + FirstIndex(tracks[1..], name)
  }

  /** The speakers are listed in the order of their first turn. */
  lemma {:induction false} GroupedOrder(tracks: seq<Track>, a: nat, b: nat)
    requires a < b < |Grouped(tracks).keys|
    ensures HasLabel(tracks, Grouped(tracks).keys[a]) && HasLabel(tracks, Grouped(tracks).keys[b])
    ensures FirstIndex(tracks, Grouped(tracks).keys[a]) < FirstIndex(tracks, Grouped(tracks).keys[b])
  {
    var init := tracks[..|tracks| - 1];
    var keys := Grouped(tracks).keys;
    assert forall i :: 0 <= i < |init| ==> init[i] == tracks[i];
    GroupedContents(tracks, keys[a]);
    GroupedContents(tracks, keys[b]);
    GroupedContents(init, keys[a]);
    if b < |Grouped(init).keys| {
      GroupedOrder(init, a, b);
      GroupedContents(init, keys[b]);
      FirstIndexPrefix(tracks, keys[a]);
      FirstIndexPrefix(tracks, keys[b]);
    } else {
      // keys[b] is the name of the last track, seen for the first time
      assert keys[b] == tracks[|tracks| - 1].speaker;
      GroupedContents(init, keys[b]);
      assert !HasLabel(init, keys[b]);
      FirstIndexPrefix(tracks, keys[a]);
    }
  }

  /** A name already present before the last track has the same first index with it. */
  lemma FirstIndexPrefix(tracks: seq<Track>, name: string)
    requires tracks != [] && HasLabel(tracks[..|tracks| - 1], name)
    ensures HasLabel(tracks, name)
    ensures FirstIndex(tracks, name) == FirstIndex(tracks[..|tracks| - 1], name)
  {
    var init := tracks[..|tracks| - 1];
    var i := FirstIndex(init, name);
    assert tracks[i] == init[i];
    var j := FirstIndex(tracks, name);
    assert j <= i;
    assert j < |init| && init[j] == tracks[j];
  }

  /** Number of turns held across `keys`. */
  function TurnCount(keys: seq<string>, turns: map<string, seq<Interval>>): nat
    requires forall i :: 0 <= i < |keys| ==> keys[i] in turns
  {
    if keys == [] then 0 else TurnCount(keys[..|keys| - 1], turns) + |turns[keys[|keys| - 1]]|
  }

  lemma {:induction false} TurnCountUpdate(keys: seq<string>, turns: map<string, seq<Interval>>, k: string, v: seq<Interval>)
    requires forall x :: x in keys ==> x in turns
    requires forall i, j :: 0 <= i < j < |keys| ==> keys[i] != keys[j]
    ensures k !in keys ==> TurnCount(keys, turns[k := v]) == TurnCount(keys, turns)
    ensures k in keys ==> TurnCount(keys, turns[k := v]) + |turns[k]| == TurnCount(keys, turns) + |v|
  {
    if keys != [] {
      var init := keys[..|keys| - 1];
      assert forall x :: x in init ==> x in keys;
      TurnCountUpdate(init, turns, k, v);
      if k == keys[|keys| - 1] {
        assert k !in init;
      }
    }
  }

  /** Every speaker in the grouped dictionary is listed for the tier loop. */
  lemma {:induction false} GroupedListsAll(tracks: seq<Track>)
    ensures Grouped(tracks).ListsAll()
  {
    if tracks != [] {
      var init := tracks[..|tracks| - 1];
      var t := tracks[|tracks| - 1];
      var d := Grouped(init);
      GroupedListsAll(init);
      InsertListsAll(d, t.speaker, (if t.speaker in d.turns then d.turns[t.speaker] else []) + [(t.start, t.end)]);
    }
  }

  /** Grouping loses no turn and invents none: the lists hold one turn per track. */
  lemma {:induction false} GroupedTurnCount(tracks: seq<Track>)
    ensures TurnCount(Grouped(tracks).keys, Grouped(tracks).turns) == |tracks|
  {
    if tracks != [] {
      var init := tracks[..|tracks| - 1];
      var d := Grouped(init);
      var t := tracks[|tracks| - 1];
      var sofar := if t.speaker in d.turns then d.turns[t.speaker] else [];
      GroupedTurnCount(init);
      GroupedListsAll(init);
      TurnCountUpdate(d.keys, d.turns, t.speaker, sofar + [(t.start, t.end)]);
      if t.speaker !in d.turns {
        var keys := d.keys + [t.speaker];
        assert keys[..|keys| - 1] == d.keys;
      }
    }
  }

  // ---------------------------------------------------------------------------
  // Matching speakers to reference voices
  // ---------------------------------------------------------------------------

  /** The distance a match must beat to begin with: 0 is identical, 1 opposite. */
  const Threshold: real := 1.0

  /**
   * The scan over one speaker's distances to the references: the index of the
   * best reference so far and the distance it must be beaten by.
   */
  function Scan(dists: seq<real>): (Option<nat>, real) {
    if dists == [] then (None, Threshold)
    else
      var (best, least) := Scan(dists[..|dists| - 1]);
      if dists[|dists| - 1] < least then (Some(|dists| - 1), dists[|dists| - 1]) else (best, least)
  }

  /** The reference matched: `None` when no distance is below the threshold. */
  function Nearest(dists: seq<real>): Option<nat> {
    Scan(dists).0
  }

  /**
   * `k` is the first reference at the strictly smallest distance, and that
   * distance is below the threshold.
   */
  ghost predicate IsFirstNearest(dists: seq<real>, k: int) {
    && 0 <= k < |dists| && dists[k] < Threshold
    && (forall j :: 0 <= j < |dists| ==> dists[k] <= dists[j])
    && (forall j :: 0 <= j < k ==> dists[k] < dists[j])
  }

  /**
   * The scan keeps the first minimum below the threshold; it finds nothing
   * exactly when no distance is below the threshold.
   */
  lemma {:induction false} NearestIsFirstMinimum(dists: seq<real>)
    ensures Nearest(dists).None? <==> forall j :: 0 <= j < |dists| ==> dists[j] >= Threshold
    ensures Nearest(dists).Some? ==> IsFirstNearest(dists, Nearest(dists).value)
    ensures Scan(dists).1 == if Nearest(dists).Some? then dists[Nearest(dists).value] else Threshold
  {
    if dists != [] {
      var init := dists[..|dists| - 1];
      NearestIsFirstMinimum(init);
      assert forall j :: 0 <= j < |init| ==> init[j] == dists[j];
    }
  }

  /** The distances the pipeline supplies have the shape the script indexes them with. */
  ghost predicate WellShaped(speakers: SpeakerTable, labels: seq<string>, refIds: seq<string>, dists: seq<seq<real>>) {
    && |dists| == |labels|
    && (forall s :: 0 <= s < |dists| ==> |dists[s]| == |refIds|)
    && (forall s :: 0 <= s < |labels| ==> labels[s] in speakers.turns)
  }

  /** The reference id speaker `s` is renamed to, if any (an empty id counts as none). */
  function MatchOf(refIds: seq<string>, row: seq<real>): Option<string>
    requires |row| == |refIds|
  {
    var k := Nearest(row);
    if k.None? then None
    else
      NearestIsFirstMinimum(row);
      if refIds[k.value] == "" then None else Some(refIds[k.value])
  }

  /** The `identified_speakers` dictionary once the first `|labels|` speakers have been matched. */
  function Identified(speakers: SpeakerTable, labels: seq<string>, refIds: seq<string>, dists: seq<seq<real>>): (d: SpeakerTable)
    requires speakers.Valid() && WellShaped(speakers, labels, refIds, dists)
    ensures d.Valid()
  {
    if labels == [] then EmptyTable
    else
      var n := |labels| - 1;
      var d := Identified(speakers, labels[..n], refIds, dists[..n]);
      var m := MatchOf(refIds, dists[n]);
      if m.None? then d else d.Insert(m.value, speakers.turns[labels[n]])
  }

  /** Every name in the renamed dictionary is listed for the tier loop. */
  lemma {:induction false} IdentifiedListsAll(speakers: SpeakerTable, labels: seq<string>, refIds: seq<string>, dists: seq<seq<real>>)
    requires speakers.Valid() && WellShaped(speakers, labels, refIds, dists)
    ensures Identified(speakers, labels, refIds, dists).ListsAll()
  {
    if labels != [] {
      var n := |labels| - 1;
      assert WellShaped(speakers, labels[..n], refIds, dists[..n]);
      IdentifiedListsAll(speakers, labels[..n], refIds, dists[..n]);
      var d := Identified(speakers, labels[..n], refIds, dists[..n]);
      var m := MatchOf(refIds, dists[n]);
      if m.Some? {
        InsertListsAll(d, m.value, speakers.turns[labels[n]]);
      }
    }
  }

  /**
   * A speaker is renamed to `r` exactly when `r` is a non-empty id of the
   * first reference at the strictly smallest distance below the threshold.
   */
  lemma MatchOfSpec(refIds: seq<string>, row: seq<real>, r: string)
    requires |row| == |refIds|
    ensures MatchOf(refIds, row) == Some(r) <==>
      r != "" && exists k :: IsFirstNearest(row, k) && refIds[k] == r
  {
    NearestIsFirstMinimum(row);
    if exists k :: IsFirstNearest(row, k) && refIds[k] == r {
      var k :| IsFirstNearest(row, k) && refIds[k] == r;
      var k0 := Nearest(row).value;
      assert row[k] == row[k0];
    }
  }

  /** The last speaker renamed to `r`, if any. */
  function LastMatch(refIds: seq<string>, dists: seq<seq<real>>, r: string): (s: Option<nat>)
    requires forall s :: 0 <= s < |dists| ==> |dists[s]| == |refIds|
    ensures s.Some? ==> s.value < |dists| && MatchOf(refIds, dists[s.value]) == Some(r)
    ensures s.Some? ==> forall t :: s.value < t < |dists| ==> MatchOf(refIds, dists[t]) != Some(r)
    ensures s.None? ==> forall t :: 0 <= t < |dists| ==> MatchOf(refIds, dists[t]) != Some(r)
  {
    if dists == [] then None
    else if MatchOf(refIds, dists[|dists| - 1]) == Some(r) then Some(|dists| - 1)
    else
      var init := dists[..|dists| - 1];
      assert forall t :: 0 <= t < |init| ==> init[t] == dists[t];
      LastMatch(refIds, init, r)
  }

  /**
   * A reference id ends up in `identified_speakers` exactly when some speaker
   * is matched to it, and it holds the turns of the last such speaker.
   */
  lemma {:induction false} IdentifiedLastWins(speakers: SpeakerTable, labels: seq<string>, refIds: seq<string>, dists: seq<seq<real>>, r: string)
    requires speakers.Valid() && WellShaped(speakers, labels, refIds, dists)
    ensures r in Identified(speakers, labels, refIds, dists).turns <==> LastMatch(refIds, dists, r).Some?
    ensures r in Identified(speakers, labels, refIds, dists).turns ==>
      Identified(speakers, labels, refIds, dists).turns[r] == speakers.turns[labels[LastMatch(refIds, dists, r).value]]
  {
    if labels != [] {
      var n := |labels| - 1;
      var labels', dists' := labels[..n], dists[..n];
      IdentifiedLastWins(speakers, labels', refIds, dists', r);
      if MatchOf(refIds, dists[n]) != Some(r) {
        var found := LastMatch(refIds, dists', r);
        assert found == LastMatch(refIds, dists, r);
        if found.Some? {
          assert labels[found.value] == labels'[found.value];
        }
      }
    }
  }

  /** Every name in `identified_speakers` is a non-empty reference id some speaker is nearest to. */
  lemma IdentifiedNamesAreReferences(speakers: SpeakerTable, labels: seq<string>, refIds: seq<string>, dists: seq<seq<real>>, r: string)
    requires speakers.Valid() && WellShaped(speakers, labels, refIds, dists)
    requires r in Identified(speakers, labels, refIds, dists).turns
    ensures r != ""
    ensures exists s, k :: 0 <= s < |dists| && IsFirstNearest(dists[s], k) && refIds[k] == r
  {
    IdentifiedLastWins(speakers, labels, refIds, dists, r);
    var s := LastMatch(refIds, dists, r).value;
    MatchOfSpec(refIds, dists[s], r);
  }

  /**
   * Renames speakers after their nearest reference voice. For each speaker a
   * running minimum starts at the threshold and is replaced only by a strictly
   * smaller distance; a speaker without a (non-empty) match is dropped, and a
   * later speaker matched to the same reference replaces the earlier one.
   */
  method IdentifySpeakers(speakers: SpeakerTable, labels: seq<string>, refIds: seq<string>, dists: seq<seq<real>>)
    returns (identified: SpeakerTable)
    requires speakers.Valid() && WellShaped(speakers, labels, refIds, dists)
    ensures identified == Identified(speakers, labels, refIds, dists)
  {
    identified := EmptyTable;
    var s := 0;
    while s < |labels|
      invariant 0 <= s <= |labels|
      invariant identified == Identified(speakers, labels[..s], refIds, dists[..s])
    {
      assert labels[..s + 1][..s] == labels[..s] && dists[..s + 1][..s] == dists[..s];
      var row := dists[s];
      var minDistance := Threshold;
      var best: Option<string> := None;
      var j := 0;
      while j < |refIds|
        invariant 0 <= j <= |refIds|
        invariant minDistance == Scan(row[..j]).1
        invariant Scan(row[..j]).0.Some? ==> Scan(row[..j]).0.value < j
        invariant best == (if Scan(row[..j]).0.Some? then Some(refIds[Scan(row[..j]).0.value]) else None)
      {
        assert row[..j + 1][..j] == row[..j];
        if row[j] < minDistance {
          minDistance := row[j];
          best := Some(refIds[j]);
        }
        j := j + 1;
      }
      assert row[..|refIds|] == row;
      if best.Some? && best.value != "" {
        identified := identified.Insert(best.value, speakers.turns[labels[s]]);
      }
      s := s + 1;
    }
    assert labels[..|labels|] == labels && dists[..|dists|] == dists;
  }
}
