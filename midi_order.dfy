/**
 * Why `mAllPianoKeysSorted.get(midi - 21)` finds the key with that MIDI
 * number: InitPiano gives its 88 keys the numbers 21..108, each once, and a
 * list of 88 distinct numbers in 21..108 sorted ascending holds 21 + i at
 * index i.
 */
module MidiOrder {
  import opened PianoKeys
  import opened Layout

  const NumKeys := 88
  const LowestMidi := 21
  const HighestMidi := 108

  /** The position of a key in InitPiano's creation order: all black keys, then all white keys. */
  function BuildRank(id: KeyId): int {
    if id.keyType == Black then (if id.group == 0 then 0 else 5 * id.group - 4 + id.pos)
    else 36 + WhiteSlot(id.group, id.pos)
  }

  lemma BuildRankRange(id: KeyId)
    requires ValidId(id)
    ensures 0 <= BuildRank(id) < NumKeys
    ensures id.keyType == Black <==> BuildRank(id) < 36
  {
  }

  /** The number of black keys in the groups before group g. */
  function BlackRankStart(g: int): int {
    if g == 0 then 0 else 5 * g - 4
  }

  /** The number of white keys in the groups before group g. */
  function WhiteRankStart(g: int): int {
    if g == 0 then 0 else if g == WhiteGroups then 52 else 7 * g - 5
  }

  /** The key InitPiano creates at position i of its creation order. */
  function IdAtRank(i: int): KeyId
    requires 0 <= i < NumKeys
  {
    if i == 0 then KeyId(Black, 0, 0)
    else if i < 36 then KeyId(Black, (i + 4) / 5, (i + 4) % 5)
    else KeyId(White, WhiteIdAt(i - 36).0, WhiteIdAt(i - 36).1)
  }

  /** Creation positions and keys correspond one to one. */
  lemma RankRoundTrip(id: KeyId, i: int)
    ensures ValidId(id) ==> 0 <= BuildRank(id) < NumKeys && IdAtRank(BuildRank(id)) == id
    ensures 0 <= i < NumKeys ==> ValidId(IdAtRank(i)) && BuildRank(IdAtRank(i)) == i
  {
    WhiteSlotRoundTrip(id.group, id.pos, i - 36);
  }

  /** Group g's keys follow those of the groups before it in the creation order. */
  lemma RankInGroup(g: int, p: int)
    ensures ValidBlack(g, p) ==> BuildRank(KeyId(Black, g, p)) == BlackRankStart(g) + p
    ensures ValidWhite(g, p) ==> BuildRank(KeyId(White, g, p)) == 36 + WhiteRankStart(g) + p
    ensures 0 <= g < BlackGroups ==> BlackRankStart(g + 1) == BlackRankStart(g) + BlackGroupSize(g)
    ensures 0 <= g < WhiteGroups ==> WhiteRankStart(g + 1) == WhiteRankStart(g) + WhiteGroupSize(g)
  {
  }

  /** The kind and the position in its octave group of each of the twelve notes C..B. */
  const NoteKind: seq<KeyType> := [White, Black, White, Black, White, White, Black, White, Black, White, Black, White]
  const NotePos: seq<int> := [0, 0, 1, 1, 2, 3, 2, 4, 3, 5, 4, 6]

  /** The key InitPiano gives MIDI number m. */
  function IdOfMidi(m: int): (id: KeyId)
    requires LowestMidi <= m <= HighestMidi
  {
    if m == 21 then KeyId(White, 0, 0)
    else if m == 22 then KeyId(Black, 0, 0)
    else if m == 23 then KeyId(White, 0, 1)
    else if m == 108 then KeyId(White, 8, 0)
    else KeyId(NoteKind[m % 12], m / 12 - 1, NotePos[m % 12])
  }

  /** Every key gets a MIDI number in 21..108, and the number names the key. */
  lemma MidiOfKey(id: KeyId)
    requires ValidId(id)
    ensures LowestMidi <= IdMidi(id) <= HighestMidi
    ensures IdOfMidi(IdMidi(id)) == id
  {
    var g, p := id.group, id.pos;
    if 1 <= g <= 7 {
      var m := IdMidi(id);
      if id.keyType == Black {
        assert m == [13, 15, 18, 20, 22][p] + 12 * g;
      } else {
        assert m == [12, 14, 16, 17, 19, 21, 23][p] + 12 * g;
      }
      assert m / 12 == g + 1 && m % 12 == m - 12 * g - 12;
    }
  }

  /** Every number in 21..108 is the MIDI number of some key. */
  lemma KeyOfMidi(m: int)
    requires LowestMidi <= m <= HighestMidi
    ensures ValidId(IdOfMidi(m)) && IdMidi(IdOfMidi(m)) == m
  {
  }

  /** Different keys have different MIDI numbers. */
  lemma MidiInjective(a: KeyId, b: KeyId)
    requires ValidId(a) && ValidId(b) && IdMidi(a) == IdMidi(b)
    ensures a == b
  {
    MidiOfKey(a);
    MidiOfKey(b);
  }

  ghost predicate Distinct(ms: seq<int>) {
    forall i, j :: 0 <= i < j < |ms| ==> ms[i] != ms[j]
  }

  /** A value occurs at most once in a list without repeats. */
  lemma {:induction false} DistinctCount(ms: seq<int>, v: int)
    requires Distinct(ms)
    ensures multiset(ms)[v] <= 1
    decreases |ms|
  {
    if ms != [] {
      var init := ms[..|ms| - 1];
      assert ms == init + [ms[|ms| - 1]];
      DistinctCount(init, v);
      if ms[|ms| - 1] == v {
        assert v !in init;
      }
    }
  }

  /** A value at two positions occurs at least twice. */
  lemma RepeatCount(ms: seq<int>, i: int, j: int)
    requires 0 <= i < j < |ms| && ms[i] == ms[j]
    ensures multiset(ms)[ms[i]] >= 2
  {
    assert ms == ms[..j] + [ms[j]] + ms[j + 1..];
    assert ms[i] in ms[..j];
  }

  /** Whatever the order, a list with the values of a list without repeats has none. */
  lemma PermutationKeepsDistinct(ms: seq<int>, ls: seq<int>)
    requires multiset(ms) == multiset(ls) && Distinct(ls)
    ensures Distinct(ms)
  {
    forall i, j | 0 <= i < j < |ms| ensures ms[i] != ms[j] {
      if ms[i] == ms[j] {
        RepeatCount(ms, i, j);
        DistinctCount(ls, ms[i]);
      }
    }
  }

  /** In a strictly ascending list of values no smaller than lo, index i holds at least lo + i. */
  lemma {:induction false} AscendingLowerBound(ms: seq<int>, lo: int, i: int)
    requires forall k :: 0 <= k < |ms| ==> lo <= ms[k]
    requires forall k :: 0 < k < |ms| ==> ms[k - 1] < ms[k]
    requires 0 <= i < |ms|
    ensures ms[i] >= lo + i
  {
    if i > 0 {
      AscendingLowerBound(ms, lo, i - 1);
    }
  }

  /** In a strictly ascending list of values no larger than hi, index i holds at most hi - (|ms| - 1 - i). */
  lemma {:induction false} AscendingUpperBound(ms: seq<int>, hi: int, i: int)
    requires forall k :: 0 <= k < |ms| ==> ms[k] <= hi
    requires forall k :: 0 < k < |ms| ==> ms[k - 1] < ms[k]
    requires 0 <= i < |ms|
    ensures ms[i] <= hi - (|ms| - 1 - i)
    decreases |ms| - i
  {
    if i < |ms| - 1 {
      AscendingUpperBound(ms, hi, i + 1);
    }
  }

  /**
   * A sorted rearrangement of 88 distinct numbers in 21..108 is 21, 22, ..., 108.
   */
  lemma SortedDistinctIsRange(ms: seq<int>, ls: seq<int>)
    requires multiset(ms) == multiset(ls) && |ls| == NumKeys && Distinct(ls)
    requires forall k :: 0 <= k < |ls| ==> LowestMidi <= ls[k] <= HighestMidi
    requires forall i, j :: 0 <= i < j < |ms| ==> ms[i] <= ms[j]
    ensures |ms| == NumKeys
    ensures forall i :: 0 <= i < |ms| ==> ms[i] == LowestMidi + i
  {
    assert |ms| == |multiset(ms)| == |multiset(ls)| == |ls|;
    PermutationKeepsDistinct(ms, ls);
    forall k | 0 <= k < |ms| ensures LowestMidi <= ms[k] <= HighestMidi {
      assert ms[k] in multiset(ls);
    }
    forall i | 0 <= i < |ms| ensures ms[i] == LowestMidi + i {
      AscendingLowerBound(ms, LowestMidi, i);
      AscendingUpperBound(ms, HighestMidi, i);
    }
  }

  lemma AscendingMidis(sorted: seq<PianoKey>)
    requires AscendingByMidi(sorted)
    ensures forall i, j :: 0 <= i < j < |Midis(sorted)| ==> Midis(sorted)[i] <= Midis(sorted)[j]
  {
    forall i, j | 0 <= i < j < |Midis(sorted)| ensures Midis(sorted)[i] <= Midis(sorted)[j] {
      MidisAt(sorted, i);
      MidisAt(sorted, j);
    }
  }

  /**
   * The key-level form: a list of keys sorted by MIDI number whose numbers
   * are 88 distinct numbers in 21..108 has number 21 + i at index i.
   */
  lemma SortedKeysIndexedByMidi(sorted: seq<PianoKey>, ls: seq<int>)
    requires AscendingByMidi(sorted) && multiset(Midis(sorted)) == multiset(ls)
    requires |ls| == NumKeys && Distinct(ls)
    requires forall k :: 0 <= k < |ls| ==> LowestMidi <= ls[k] <= HighestMidi
    ensures |sorted| == NumKeys
    ensures forall i :: 0 <= i < |sorted| ==> sorted[i].midiNoteNum == LowestMidi + i
  {
    var ms := Midis(sorted);
    assert forall i, j :: 0 <= i < j < |ms| ==> ms[i] <= ms[j] by {
      AscendingMidis(sorted);
    }
    SortedDistinctIsRange(ms, ls);
    MidisAreRange(sorted);
  }

  lemma MidisAreRange(sorted: seq<PianoKey>)
    requires forall i :: 0 <= i < |Midis(sorted)| ==> Midis(sorted)[i] == LowestMidi + i
    ensures forall i :: 0 <= i < |sorted| ==> sorted[i].midiNoteNum == LowestMidi + i
  {
    forall i | 0 <= i < |sorted| ensures sorted[i].midiNoteNum == LowestMidi + i {
      MidisAt(sorted, i);
    }
  }
}
