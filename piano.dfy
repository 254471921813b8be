/**
 * The keyboard builder (Piano.java): the 88 key objects in their octave
 * groups, the list of all keys sorted by MIDI number, the dimensions they were
 * laid out with and the three tiers of highlight entries.
 */
module Pianos {
  import opened Options
  import opened Rects
  import opened JavaMath
  import opened PianoKeys
  import opened Layout
  import opened MidiOrder
  import opened Highlight
  import opened Partition

  /** The key's identity fields hold what InitPiano writes for a key with that spec. */
  ghost predicate Matches(k: PianoKey, s: KeySpec)
    reads k`keyType, k`voice, k`group, k`positionOfGroup, k`bounds, k`areaOfKey, k`letterName, k`midiNoteNum
  {
    k.keyType == s.keyType && k.voice == s.voice && k.group == s.group && k.positionOfGroup == s.positionOfGroup &&
    k.bounds == s.bounds && k.areaOfKey == s.areaOfKey && k.letterName == s.letterName && k.midiNoteNum == s.midiNoteNum
  }

  /** The fields a build writes into a key, which nothing afterwards changes. */
  ghost function Shape(k: PianoKey): KeySpec
    reads k`keyType, k`voice, k`group, k`positionOfGroup, k`bounds, k`areaOfKey, k`letterName, k`midiNoteNum
  {
    KeySpec(k.keyType, k.voice, k.group, k.positionOfGroup, k.bounds, k.areaOfKey, k.letterName, k.midiNoteNum)
  }

  /** A key as `new PianoKey()` and setPressed(false) leave it: not pressed, no finger, no labels. */
  ghost predicate Untouched(k: PianoKey)
    reads k`isPressed, k`fingerID, k`highlightedNoteName1, k`highlightedNoteName2, k`highlightedNoteName3
  {
    !k.isPressed && k.fingerID == -1 && Label(k, Tier1) == "" && Label(k, Tier2) == "" && Label(k, Tier3) == ""
  }

  /** Every key of the list as InitPiano's loops leave it. */
  ghost predicate AllUntouched(keys: seq<PianoKey>)
    reads keys`isPressed, keys`fingerID, keys`highlightedNoteName1, keys`highlightedNoteName2, keys`highlightedNoteName3
  {
    forall i :: 0 <= i < |keys| ==> Untouched(keys[i])
  }

  /** Every label of every key is blank. */
  ghost predicate AllBlank(keys: seq<PianoKey>)
    reads keys`highlightedNoteName1, keys`highlightedNoteName2, keys`highlightedNoteName3
  {
    forall i, t :: 0 <= i < |keys| ==> Label(keys[i], t) == ""
  }

  /** The body of InitPiano's inner loops: a new key with everything the builder writes for id. */
  method NewKey(id: KeyId, d: Dims) returns (k: PianoKey)
    requires ValidId(id)
    ensures fresh(k) && Matches(k, Spec(id, d)) && Untouched(k)
  {
    var spec := Spec(id, d);
    k := new PianoKey();
    SetPlace(k, spec);
    SetLook(k, spec);
  }

  /** The first setter calls InitPiano makes on a new key: colour, group, position, not pressed. */
  method SetPlace(k: PianoKey, spec: KeySpec)
    modifies k`keyType, k`group, k`positionOfGroup, k`isPressed
    ensures k.keyType == spec.keyType && k.group == spec.group && k.positionOfGroup == spec.positionOfGroup
    ensures !k.isPressed
  {
    k.SetType(spec.keyType);
    k.SetGroup(spec.group);
    k.SetPositionOfGroup(spec.positionOfGroup);
    k.SetPressed(false);
  }

  /** The remaining setter calls: drawable bounds, touch area, voice, letter name, MIDI number. */
  method SetLook(k: PianoKey, spec: KeySpec)
    modifies k`bounds, k`areaOfKey, k`voice, k`letterName, k`midiNoteNum
    ensures k.bounds == spec.bounds && k.areaOfKey == spec.areaOfKey && k.voice == spec.voice
    ensures k.letterName == spec.letterName && k.midiNoteNum == spec.midiNoteNum
  {
    k.SetKeyDrawableBounds(spec.bounds);
    k.SetAreaOfKey(spec.areaOfKey);
    k.SetVoice(spec.voice);
    k.SetLetterName(spec.letterName);
    k.SetMidiNoteNumber(spec.midiNoteNum);
  }

  /** The key created at position r of InitPiano's creation order, as it leaves it. */
  ghost predicate BuiltAt(k: PianoKey, r: int, d: Dims)
    reads k`keyType, k`voice, k`group, k`positionOfGroup, k`bounds, k`areaOfKey, k`letterName, k`midiNoteNum
    reads k`isPressed, k`fingerID, k`highlightedNoteName1, k`highlightedNoteName2, k`highlightedNoteName3
  {
    0 <= r < NumKeys && Matches(k, Spec(IdAtRank(r), d)) && Untouched(k)
  }

  /** Keys created at positions start, start + 1, ... of InitPiano's creation order, as it leaves them. */
  ghost predicate BuiltRun(all: seq<PianoKey>, start: int, d: Dims)
    reads all`keyType, all`voice, all`group, all`positionOfGroup, all`bounds, all`areaOfKey, all`letterName, all`midiNoteNum
    reads all`isPressed, all`fingerID, all`highlightedNoteName1, all`highlightedNoteName2, all`highlightedNoteName3
  {
    0 <= start && start + |all| <= NumKeys &&
    forall i :: 0 <= i < |all| ==> BuiltAt(all[i], start + i, d)
  }

  lemma BuiltRunAppend(all: seq<PianoKey>, key: PianoKey, start: int, d: Dims)
    requires BuiltRun(all, start, d) && start + |all| < NumKeys
    requires BuiltAt(key, start + |all|, d)
    ensures BuiltRun(all + [key], start, d)
  {
    var a := all + [key];
    forall i | 0 <= i < |a|
      ensures BuiltAt(a[i], start + i, d)
    {
      if i < |all| {
        assert a[i] == all[i];
      } else {
        assert a[i] == key && start + i == start + |all|;
      }
    }
  }

  /** NewKey for the key created next after the run `all` that starts at rank `start`. */
  method AppendKey(id: KeyId, d: Dims, all: seq<PianoKey>, start: int) returns (key: PianoKey)
    requires ValidId(id) && 0 <= start && start + |all| == BuildRank(id) && BuiltRun(all, start, d)
    ensures fresh(key) && BuiltRun(all + [key], start, d)
  {
    RankRoundTrip(id, 0);
    key := NewKey(id, d);
    BuiltRunAppend(all, key, start, d);
  }

  /** Where group h starts in the creation order of the keys of its colour. */
  function RankStart(kind: KeyType, h: int): int {
    if kind == Black then BlackRankStart(h) else WhiteRankStart(h)
  }

  function GroupSize(kind: KeyType, h: int): nat {
    if kind == Black then BlackGroupSize(h) else WhiteGroupSize(h)
  }

  /** Each group's key array holds the keys created for it, in creation order. */
  ghost predicate GroupsOf(groups: seq<seq<PianoKey>>, all: seq<PianoKey>, kind: KeyType) {
    forall h :: 0 <= h < |groups| ==>
      0 <= RankStart(kind, h) <= RankStart(kind, h) + GroupSize(kind, h) <= |all| &&
      groups[h] == all[RankStart(kind, h)..RankStart(kind, h) + GroupSize(kind, h)]
  }

  lemma GroupsOfAppend(groups: seq<seq<PianoKey>>, all: seq<PianoKey>, keys: seq<PianoKey>, kind: KeyType)
    requires GroupsOf(groups, all, kind) && |all| == RankStart(kind, |groups|) && |keys| == GroupSize(kind, |groups|)
    requires 0 <= RankStart(kind, |groups|)
    ensures GroupsOf(groups + [keys], all + keys, kind)
  {
    var gs, a := groups + [keys], all + keys;
    forall h | 0 <= h < |gs|
      ensures 0 <= RankStart(kind, h) <= RankStart(kind, h) + GroupSize(kind, h) <= |a|
      ensures gs[h] == a[RankStart(kind, h)..RankStart(kind, h) + GroupSize(kind, h)]
    {
      var lo, hi := RankStart(kind, h), RankStart(kind, h) + GroupSize(kind, h);
      if h < |groups| {
        assert gs[h] == groups[h] == all[lo..hi];
        assert a[lo..hi] == all[lo..hi];
      } else {
        assert lo == |all| && hi == |a|;
        assert a[|all|..] == keys;
      }
    }
  }

  /** One pass of InitPiano's black-key inner loop: the keys of black group g, appended to `all`. */
  method NewBlackGroup(g: int, d: Dims, all: seq<PianoKey>) returns (keys: seq<PianoKey>, all': seq<PianoKey>)
    requires 0 <= g < BlackGroups && |all| == BlackRankStart(g) && BuiltRun(all, 0, d)
    ensures |keys| == BlackGroupSize(g) && all' == all + keys
    ensures BuiltRun(all', 0, d) && forall q :: 0 <= q < |keys| ==> fresh(keys[q])
  {
    keys, all' := [], all;
    var p := 0;
    while p < BlackGroupSize(g)
      invariant 0 <= p <= BlackGroupSize(g) && |keys| == p && all' == all + keys
      invariant BuiltRun(all', 0, d) && forall q :: 0 <= q < p ==> fresh(keys[q])
    {
      RankInGroup(g, p);
      var key := AppendKey(KeyId(Black, g, p), d, all', 0);
      keys := keys + [key];
      all' := all' + [key];
      if g == 0 {
        // group 0 holds A#0 only
        break;
      }
      p := p + 1;
    }
  }

  /**
   * InitPiano's black-key loops: eight groups of 1 and 5 keys; `all` is the
   * order in which they are appended to mAllPianoKeysSorted.
   */
  method BuildBlackKeys(d: Dims) returns (groups: seq<seq<PianoKey>>, all: seq<PianoKey>)
    ensures |groups| == BlackGroups && |all| == BlackRankStart(BlackGroups)
    ensures BuiltRun(all, 0, d) && forall i :: 0 <= i < |all| ==> fresh(all[i])
    ensures GroupsOf(groups, all, Black)
  {
    groups, all := [], [];
    var g := 0;
    while g < BlackGroups
      invariant 0 <= g <= BlackGroups && |groups| == g && |all| == BlackRankStart(g)
      invariant BuiltRun(all, 0, d) && forall i :: 0 <= i < |all| ==> fresh(all[i])
      invariant GroupsOf(groups, all, Black)
    {
      var keys, all';
      RankInGroup(g, 0);
      keys, all' := NewBlackGroup(g, d, all);
      GroupsOfAppend(groups, all, keys, Black);
      groups, all := groups + [keys], all';
      g := g + 1;
    }
  }

  /** One pass of InitPiano's white-key inner loop: the keys of white group g, each counted. */
  method NewWhiteGroup(g: int, d: Dims, all: seq<PianoKey>, count: int)
    returns (keys: seq<PianoKey>, all': seq<PianoKey>, count': int)
    requires 0 <= g < WhiteGroups && |all| == WhiteRankStart(g) && BuiltRun(all, 36, d)
    ensures |keys| == WhiteGroupSize(g) && all' == all + keys && count' == count + |keys|
    ensures BuiltRun(all', 36, d) && forall q :: 0 <= q < |keys| ==> fresh(keys[q])
  {
    keys, all', count' := [], all, count;
    var p := 0;
    while p < WhiteGroupSize(g)
      invariant 0 <= p <= WhiteGroupSize(g) && |keys| == p && all' == all + keys && count' == count + p
      invariant BuiltRun(all', 36, d) && forall q :: 0 <= q < p ==> fresh(keys[q])
    {
      RankInGroup(g, p);
      var key := AppendKey(KeyId(White, g, p), d, all', 36);
      keys := keys + [key];
      all' := all' + [key];
      count' := count' + 1;
      if g == 8 {
        // group 8 holds C8 only
        break;
      }
      p := p + 1;
    }
  }

  /**
   * InitPiano's white-key loops: nine groups of 2, 7 and 1 keys, counting
   * each key into mNumOfWhiteKeys.
   */
  method BuildWhiteKeys(d: Dims) returns (groups: seq<seq<PianoKey>>, all: seq<PianoKey>, numOfWhiteKeys: int)
    ensures |groups| == WhiteGroups && |all| == WhiteRankStart(WhiteGroups) && numOfWhiteKeys == |all|
    ensures BuiltRun(all, 36, d) && forall i :: 0 <= i < |all| ==> fresh(all[i])
    ensures GroupsOf(groups, all, White)
  {
    groups, all := [], [];
    numOfWhiteKeys := 0;
    var g := 0;
    while g < WhiteGroups
      invariant 0 <= g <= WhiteGroups && |groups| == g && |all| == WhiteRankStart(g) && numOfWhiteKeys == |all|
      invariant BuiltRun(all, 36, d) && forall i :: 0 <= i < |all| ==> fresh(all[i])
      invariant GroupsOf(groups, all, White)
    {
      var keys, all';
      RankInGroup(g, 0);
      keys, all', numOfWhiteKeys := NewWhiteGroup(g, d, all, numOfWhiteKeys);
      GroupsOfAppend(groups, all, keys, White);
      groups, all := groups + [keys], all';
      g := g + 1;
    }
  }

  lemma BuiltRunConcat(a: seq<PianoKey>, b: seq<PianoKey>, d: Dims)
    requires BuiltRun(a, 0, d) && BuiltRun(b, |a|, d)
    ensures BuiltRun(a + b, 0, d)
  {
    forall i | 0 <= i < |a + b|
      ensures Matches((a + b)[i], Spec(IdAtRank(i), d)) && Untouched((a + b)[i])
    {
      if i >= |a| {
        assert (a + b)[i] == b[i - |a|];
      }
    }
  }

  /** The keys of a build, in creation order, carry the MIDI numbers of their identities. */
  ghost predicate CreatedMidis(all: seq<PianoKey>)
    reads all`midiNoteNum
  {
    |all| == NumKeys && forall r :: 0 <= r < NumKeys ==> all[r].midiNoteNum == IdMidi(IdAtRank(r))
  }

  lemma BuiltRunMidis(all: seq<PianoKey>, d: Dims)
    requires |all| == NumKeys && BuiltRun(all, 0, d)
    ensures CreatedMidis(all)
  {
  }

  /** The keys of a build carry 88 different MIDI numbers, all in 21..108. */
  lemma BuiltMidis(all: seq<PianoKey>)
    requires CreatedMidis(all)
    ensures |Midis(all)| == NumKeys && Distinct(Midis(all))
    ensures forall k :: 0 <= k < |Midis(all)| ==> LowestMidi <= Midis(all)[k] <= HighestMidi
  {
    forall k | 0 <= k < NumKeys ensures Midis(all)[k] == IdMidi(IdAtRank(k)) {
      MidisAt(all, k);
    }
    forall k | 0 <= k < NumKeys ensures LowestMidi <= Midis(all)[k] <= HighestMidi {
      RankRoundTrip(IdAtRank(k), k);
      MidiOfKey(IdAtRank(k));
    }
    forall i, j | 0 <= i < j < NumKeys ensures Midis(all)[i] != Midis(all)[j] {
      RankRoundTrip(IdAtRank(i), i);
      RankRoundTrip(IdAtRank(j), j);
      if IdMidi(IdAtRank(i)) == IdMidi(IdAtRank(j)) {
        MidiInjective(IdAtRank(i), IdAtRank(j));
      }
    }
  }

  /**
   * After the sort, the key InitPiano created at position r of its creation
   * order sits at index midi - 21 of the sorted list.
   */
  lemma SortedBuild(all: seq<PianoKey>, sorted: seq<PianoKey>)
    requires CreatedMidis(all) && multiset(sorted) == multiset(all)
    requires |sorted| == NumKeys && forall i :: 0 <= i < |sorted| ==> sorted[i].midiNoteNum == LowestMidi + i
    ensures forall r :: 0 <= r < NumKeys ==>
      0 <= IdMidi(IdAtRank(r)) - LowestMidi < NumKeys && all[r] == sorted[IdMidi(IdAtRank(r)) - LowestMidi]
  {
    forall r | 0 <= r < NumKeys
      ensures 0 <= IdMidi(IdAtRank(r)) - LowestMidi < NumKeys && all[r] == sorted[IdMidi(IdAtRank(r)) - LowestMidi]
    {
      RankLandsAtMidi(all, sorted, r);
    }
  }

  lemma SortedBuildMidis(all: seq<PianoKey>, sorted: seq<PianoKey>)
    requires CreatedMidis(all)
    requires multiset(Midis(sorted)) == multiset(Midis(all)) && AscendingByMidi(sorted)
    ensures |sorted| == NumKeys
    ensures forall i :: 0 <= i < |sorted| ==> sorted[i].midiNoteNum == LowestMidi + i
  {
    BuiltMidis(all);
    SortedKeysIndexedByMidi(sorted, Midis(all));
  }

  lemma RankLandsAtMidi(all: seq<PianoKey>, sorted: seq<PianoKey>, r: int)
    requires CreatedMidis(all) && multiset(sorted) == multiset(all)
    requires |sorted| == NumKeys && forall i :: 0 <= i < |sorted| ==> sorted[i].midiNoteNum == LowestMidi + i
    requires 0 <= r < NumKeys
    ensures 0 <= IdMidi(IdAtRank(r)) - LowestMidi < NumKeys && all[r] == sorted[IdMidi(IdAtRank(r)) - LowestMidi]
  {
    var id := IdAtRank(r);
    RankRoundTrip(id, r);
    MidiOfKey(id);
    var key := sorted[IdMidi(id) - LowestMidi];
    assert key in multiset(all);
    var r' :| 0 <= r' < NumKeys && all[r'] == key;
    RankRoundTrip(IdAtRank(r'), r');
    MidiInjective(IdAtRank(r'), id);
  }

  /** The group arrays have InitPiano's shape: 8 black groups of 1 and 5 keys, 9 white ones of 2, 7 and 1. */
  predicate ShapedGroups(black: seq<seq<PianoKey>>, white: seq<seq<PianoKey>>) {
    |black| == BlackGroups && |white| == WhiteGroups &&
    (forall g :: 0 <= g < BlackGroups ==> |black[g]| == BlackGroupSize(g)) &&
    (forall g :: 0 <= g < WhiteGroups ==> |white[g]| == WhiteGroupSize(g))
  }

  /** The key object at (colour, group, position) of the group arrays. */
  function KeyIn(black: seq<seq<PianoKey>>, white: seq<seq<PianoKey>>, id: KeyId): PianoKey
    requires ShapedGroups(black, white) && ValidId(id)
  {
    if id.keyType == Black then black[id.group][id.pos] else white[id.group][id.pos]
  }

  /**
   * The keys of a build: index i of the sorted list holds the key with MIDI
   * number 21 + i, as InitPiano set it up for dimensions d, and every key of
   * the group arrays is the one at index midi - 21.
   */
  ghost predicate Indexed(black: seq<seq<PianoKey>>, white: seq<seq<PianoKey>>, sorted: seq<PianoKey>, d: Dims)
    reads sorted`keyType, sorted`voice, sorted`group, sorted`positionOfGroup, sorted`bounds, sorted`areaOfKey
    reads sorted`letterName, sorted`midiNoteNum
  {
    ShapedGroups(black, white) && |sorted| == NumKeys &&
    (forall i :: 0 <= i < NumKeys ==>
      sorted[i].midiNoteNum == LowestMidi + i && Matches(sorted[i], Spec(IdOfMidi(LowestMidi + i), d))) &&
    forall id :: ValidId(id) ==>
      0 <= IdMidi(id) - LowestMidi < NumKeys && KeyIn(black, white, id) == sorted[IdMidi(id) - LowestMidi]
  }

  lemma SortedKeyMatches(all: seq<PianoKey>, sorted: seq<PianoKey>, d: Dims, i: int)
    requires |all| == NumKeys && BuiltRun(all, 0, d) && |sorted| == NumKeys
    requires forall r :: 0 <= r < NumKeys ==>
      0 <= IdMidi(IdAtRank(r)) - LowestMidi < NumKeys && all[r] == sorted[IdMidi(IdAtRank(r)) - LowestMidi]
    requires 0 <= i < NumKeys && ValidId(IdOfMidi(LowestMidi + i))
    ensures Matches(sorted[i], Spec(IdOfMidi(LowestMidi + i), d)) && Untouched(sorted[i])
  {
    var id := IdOfMidi(LowestMidi + i);
    KeyOfMidi(LowestMidi + i);
    RankRoundTrip(id, 0);
    var r := BuildRank(id);
    assert IdMidi(IdAtRank(r)) - LowestMidi == i;
    assert all[r] == sorted[i];
  }

  lemma GroupKeyAtRank(bGroups: seq<seq<PianoKey>>, bAll: seq<PianoKey>, wGroups: seq<seq<PianoKey>>,
                       wAll: seq<PianoKey>, id: KeyId)
    requires |bGroups| == BlackGroups && |bAll| == 36 && GroupsOf(bGroups, bAll, Black)
    requires |wGroups| == WhiteGroups && GroupsOf(wGroups, wAll, White)
    requires ShapedGroups(bGroups, wGroups) && ValidId(id)
    ensures 0 <= BuildRank(id) < |bAll + wAll| && KeyIn(bGroups, wGroups, id) == (bAll + wAll)[BuildRank(id)]
  {
    RankInGroup(id.group, id.pos);
    if id.keyType == Black {
      assert bGroups[id.group][id.pos] == bAll[BlackRankStart(id.group) + id.pos];
    } else {
      assert wGroups[id.group][id.pos] == wAll[WhiteRankStart(id.group) + id.pos];
    }
  }

  /** What InitPiano's two loop nests hand over: the groups of both colours and the keys in creation order. */
  ghost predicate Created(black: seq<seq<PianoKey>>, bAll: seq<PianoKey>, white: seq<seq<PianoKey>>,
                          wAll: seq<PianoKey>, d: Dims)
    reads bAll, wAll
  {
    |black| == BlackGroups && |bAll| == 36 && BuiltRun(bAll, 0, d) && GroupsOf(black, bAll, Black) &&
    |white| == WhiteGroups && |wAll| == 52 && BuiltRun(wAll, 36, d) && GroupsOf(white, wAll, White)
  }

  /** Where the sort puts each key of a build: the key created r-th sits at index midi - 21. */
  ghost predicate Landing(all: seq<PianoKey>, sorted: seq<PianoKey>)
    reads sorted`midiNoteNum
  {
    |all| == NumKeys && |sorted| == NumKeys &&
    (forall i :: 0 <= i < NumKeys ==> sorted[i].midiNoteNum == LowestMidi + i) &&
    forall r :: 0 <= r < NumKeys ==>
      0 <= IdMidi(IdAtRank(r)) - LowestMidi < NumKeys && all[r] == sorted[IdMidi(IdAtRank(r)) - LowestMidi]
  }

  lemma SortedLanding(bAll: seq<PianoKey>, wAll: seq<PianoKey>, sorted: seq<PianoKey>, d: Dims)
    requires |bAll| == 36 && BuiltRun(bAll, 0, d) && |wAll| == 52 && BuiltRun(wAll, 36, d)
    requires multiset(sorted) == multiset(bAll + wAll) && multiset(Midis(sorted)) == multiset(Midis(bAll + wAll))
    requires AscendingByMidi(sorted)
    ensures Landing(bAll + wAll, sorted)
  {
    var all := bAll + wAll;
    BuiltRunConcat(bAll, wAll, d);
    BuiltRunMidis(all, d);
    SortedBuildMidis(all, sorted);
    SortedBuild(all, sorted);
  }

  /** The sorted keys of a build: index i holds the key set up for MIDI number 21 + i, untouched. */
  lemma BuildSortedMatches(bAll: seq<PianoKey>, wAll: seq<PianoKey>, sorted: seq<PianoKey>, d: Dims)
    requires |bAll| == 36 && BuiltRun(bAll, 0, d) && |wAll| == 52 && BuiltRun(wAll, 36, d)
    requires Landing(bAll + wAll, sorted)
    ensures forall i :: 0 <= i < NumKeys ==> Matches(sorted[i], Spec(IdOfMidi(LowestMidi + i), d)) && Untouched(sorted[i])
  {
    BuiltRunConcat(bAll, wAll, d);
    forall i | 0 <= i < NumKeys ensures Matches(sorted[i], Spec(IdOfMidi(LowestMidi + i), d)) && Untouched(sorted[i]) {
      KeyOfMidi(LowestMidi + i);
      SortedKeyMatches(bAll + wAll, sorted, d, i);
    }
  }

  /** The group arrays of a build hold, at each identity, the key at index midi - 21 of the sorted list. */
  lemma BuildGroupsIndexed(bGroups: seq<seq<PianoKey>>, bAll: seq<PianoKey>, wGroups: seq<seq<PianoKey>>,
                           wAll: seq<PianoKey>, sorted: seq<PianoKey>)
    requires |bGroups| == BlackGroups && |bAll| == 36 && GroupsOf(bGroups, bAll, Black)
    requires |wGroups| == WhiteGroups && |wAll| == 52 && GroupsOf(wGroups, wAll, White)
    requires Landing(bAll + wAll, sorted)
    ensures ShapedGroups(bGroups, wGroups)
    ensures forall id :: ValidId(id) ==>
      0 <= IdMidi(id) - LowestMidi < NumKeys && KeyIn(bGroups, wGroups, id) == sorted[IdMidi(id) - LowestMidi]
  {
    assert ShapedGroups(bGroups, wGroups);
    forall id | ValidId(id)
      ensures 0 <= IdMidi(id) - LowestMidi < NumKeys && KeyIn(bGroups, wGroups, id) == sorted[IdMidi(id) - LowestMidi]
    {
      GroupKeyAtRank(bGroups, bAll, wGroups, wAll, id);
      RankRoundTrip(id, 0);
    }
  }

  /** The build's group arrays and sorted list satisfy Indexed, and no key is pressed or labelled yet. */
  lemma BuildIndexed(black: seq<seq<PianoKey>>, bAll: seq<PianoKey>, white: seq<seq<PianoKey>>,
                     wAll: seq<PianoKey>, sorted: seq<PianoKey>, d: Dims)
    requires Created(black, bAll, white, wAll, d)
    requires multiset(sorted) == multiset(bAll + wAll) && multiset(Midis(sorted)) == multiset(Midis(bAll + wAll))
    requires AscendingByMidi(sorted)
    ensures Indexed(black, white, sorted, d)
    ensures AllUntouched(sorted)
  {
    SortedLanding(bAll, wAll, sorted, d);
    BuildSortedMatches(bAll, wAll, sorted, d);
    BuildGroupsIndexed(black, bAll, white, wAll, sorted);
  }

  /** InitPiano's two loop nests: the black keys, then the white keys, counting each white one. */
  method BuildGroups(d: Dims)
    returns (black: seq<seq<PianoKey>>, bAll: seq<PianoKey>, white: seq<seq<PianoKey>>, wAll: seq<PianoKey>,
             numOfWhiteKeys: int)
    ensures Created(black, bAll, white, wAll, d) && numOfWhiteKeys == WhiteRankStart(WhiteGroups)
    ensures forall i :: 0 <= i < |bAll + wAll| ==> fresh((bAll + wAll)[i])
  {
    black, bAll := BuildBlackKeys(d);
    white, wAll, numOfWhiteKeys := BuildWhiteKeys(d);
  }

  /**
   * The body of InitPiano's build: the black keys, then the white keys, each
   * appended to the list of all keys as created, and that list sorted by MIDI
   * number.
   */
  method BuildKeys(d: Dims) returns (black: seq<seq<PianoKey>>, white: seq<seq<PianoKey>>, sorted: seq<PianoKey>,
                                     numOfWhiteKeys: int)
    ensures Indexed(black, white, sorted, d) && numOfWhiteKeys == WhiteRankStart(WhiteGroups)
    ensures AllUntouched(sorted) && forall i :: 0 <= i < |sorted| ==> fresh(sorted[i])
  {
    var bAll, wAll;
    black, bAll, white, wAll, numOfWhiteKeys := BuildGroups(d);
    sorted := SortListAscendingByMidiId(bAll + wAll);
    BuildIndexed(black, bAll, white, wAll, sorted, d);
    forall i | 0 <= i < |sorted| ensures fresh(sorted[i]) {
      assert sorted[i] in multiset(bAll + wAll);
    }
  }

  /**
   * Piano: one keyboard layout. Until a build with a positive layout size the
   * group arrays and the sorted list are empty; after one they hold the same
   * 88 key objects, the sorted list ordered by MIDI number.
   */
  class Piano {
    var blackPianoKeys: seq<seq<PianoKey>>
    var whitePianoKeys: seq<seq<PianoKey>>
    var allPianoKeysSorted: seq<PianoKey>
    var layoutWidth: int
    var layoutHeight: int
    var blackKeyWidth: int
    var blackKeyHeight: int
    var black2WhiteKeyHeightRatio: real
    var whiteKeyWidth: int
    var numOfWhiteKeys: int
    var highlightedKeyInfoList1: seq<HighlightedKeyInfo>
    var highlightedKeyInfoList2: seq<HighlightedKeyInfo>
    var highlightedKeyInfoList3: seq<HighlightedKeyInfo>
    /** The dimensions the current keys were built with. */
    ghost var builtDims: Dims

    /** The stored list of a tier. */
    function TierList(t: Tier): seq<HighlightedKeyInfo>
      reads this
    {
      match t
      case Tier1 => highlightedKeyInfoList1
      case Tier2 => highlightedKeyInfoList2
      case Tier3 => highlightedKeyInfoList3
    }

    /** The dimensions InitPiano would build with now. */
    function CurrentDims(): Dims
      reads this`whiteKeyWidth, this`blackKeyWidth, this`layoutHeight, this`black2WhiteKeyHeightRatio
    {
      Dims(whiteKeyWidth, blackKeyWidth, BlackKeyHeight(layoutHeight, black2WhiteKeyHeightRatio), layoutHeight)
    }

    /** InitPiano builds only for a positive layout size. */
    predicate Buildable()
      reads this`layoutWidth, this`layoutHeight
    {
      layoutWidth > 0 && layoutHeight > 0
    }

    /** No build has happened yet. */
    predicate Empty()
      reads this`blackPianoKeys, this`whitePianoKeys, this`allPianoKeysSorted, this`numOfWhiteKeys
    {
      blackPianoKeys == [] && whitePianoKeys == [] && allPianoKeysSorted == [] && numOfWhiteKeys == 0
    }

    /** The current keys are those of a build with dimensions d. */
    ghost predicate Built(d: Dims)
      reads this`blackPianoKeys, this`whitePianoKeys, this`allPianoKeysSorted, this`numOfWhiteKeys, this`blackKeyHeight, allPianoKeysSorted`keyType, allPianoKeysSorted`voice, allPianoKeysSorted`group
      reads allPianoKeysSorted`positionOfGroup, allPianoKeysSorted`bounds, allPianoKeysSorted`areaOfKey
      reads allPianoKeysSorted`letterName, allPianoKeysSorted`midiNoteNum
    {
      Indexed(blackPianoKeys, whitePianoKeys, allPianoKeysSorted, d) &&
      numOfWhiteKeys == WhiteRankStart(WhiteGroups) && blackKeyHeight == d.blackHeight
    }

    /** The keys are those of no build or of the last one. */
    ghost predicate KeysValid()
      reads this`blackPianoKeys, this`whitePianoKeys, this`allPianoKeysSorted, this`numOfWhiteKeys, this`blackKeyHeight, this`builtDims, allPianoKeysSorted`keyType, allPianoKeysSorted`voice, allPianoKeysSorted`group
      reads allPianoKeysSorted`positionOfGroup, allPianoKeysSorted`bounds, allPianoKeysSorted`areaOfKey
      reads allPianoKeysSorted`letterName, allPianoKeysSorted`midiNoteNum
    {
      Empty() || Built(builtDims)
    }

    /**
     * The class invariant: the black width follows the white width, and while
     * the layout size is positive the keys are those of a build with the
     * current dimensions.
     */
    ghost predicate Valid()
      reads this`blackPianoKeys, this`whitePianoKeys, this`allPianoKeysSorted, this`numOfWhiteKeys, this`blackKeyHeight, this`builtDims
      reads this`whiteKeyWidth, this`blackKeyWidth, this`layoutWidth, this`layoutHeight, this`black2WhiteKeyHeightRatio, allPianoKeysSorted`keyType, allPianoKeysSorted`voice, allPianoKeysSorted`group
      reads allPianoKeysSorted`positionOfGroup, allPianoKeysSorted`bounds, allPianoKeysSorted`areaOfKey
      reads allPianoKeysSorted`letterName, allPianoKeysSorted`midiNoteNum
    {
      KeysValid() && blackKeyWidth == BlackKeyWidth(whiteKeyWidth) &&
      (Buildable() ==> !Empty() && builtDims == CurrentDims())
    }

    /** The key of the group arrays with identity id. */
    function KeyOf(id: KeyId): PianoKey
      reads this`blackPianoKeys, this`whitePianoKeys
      requires ShapedGroups(blackPianoKeys, whitePianoKeys) && ValidId(id)
    {
      KeyIn(blackPianoKeys, whitePianoKeys, id)
    }

    /** Keys as a build leaves them: not pressed, no finger, each label as after a clear and a refresh. */
    ghost predicate Blank()
      reads this, allPianoKeysSorted`isPressed, allPianoKeysSorted`fingerID
      reads allPianoKeysSorted`highlightedNoteName1, allPianoKeysSorted`highlightedNoteName2
      reads allPianoKeysSorted`highlightedNoteName3
    {
      forall i :: 0 <= i < |allPianoKeysSorted| ==>
        !allPianoKeysSorted[i].isPressed && allPianoKeysSorted[i].fingerID == -1 &&
        forall t :: Label(allPianoKeysSorted[i], t) == FreshLabel(TierList(t), i)
    }

    /** What a build replaces: the key groups, the sorted list, the white-key count and the black key height. */
    ghost function KeysState(): (seq<seq<PianoKey>>, seq<seq<PianoKey>>, seq<PianoKey>, int, int, Dims)
      reads this`blackPianoKeys, this`whitePianoKeys, this`allPianoKeysSorted, this`numOfWhiteKeys
      reads this`blackKeyHeight, this`builtDims
    {
      (blackPianoKeys, whitePianoKeys, allPianoKeysSorted, numOfWhiteKeys, blackKeyHeight, builtDims)
    }

    /**
     * Piano(context, layoutWidth, layoutHeight, whiteKeyWidth, ratio): stores
     * the layout and the ratio, then sets the white key width, which builds.
     */
    constructor (width: int, height: int, keyWidth: int, ratio: real)
      ensures Valid()
      ensures layoutWidth == width && layoutHeight == height && black2WhiteKeyHeightRatio == ratio
      ensures whiteKeyWidth == keyWidth
      ensures highlightedKeyInfoList1 == [] && highlightedKeyInfoList2 == [] && highlightedKeyInfoList3 == []
      ensures !Buildable() ==> Empty()
      ensures Buildable() ==> Blank()
      ensures forall i :: 0 <= i < |allPianoKeysSorted| ==> fresh(allPianoKeysSorted[i])
    {
      blackPianoKeys, whitePianoKeys, allPianoKeysSorted := [], [], [];
      layoutWidth, layoutHeight := width, height;
      blackKeyWidth, blackKeyHeight, whiteKeyWidth := 0, 0, 0;
      black2WhiteKeyHeightRatio := ratio;
      numOfWhiteKeys := 0;
      highlightedKeyInfoList1, highlightedKeyInfoList2, highlightedKeyInfoList3 := [], [], [];
      builtDims := Dims(0, 0, 0, 0);
      new;
      SetWhiteKeyWidth(keyWidth);
    }

    /**
     * InitPiano: for a positive layout size, rebuilds all 88 keys for the
     * current dimensions, sorts them and re-applies the stored labels;
     * otherwise changes nothing.
     */
    method InitPiano()
      requires KeysValid() && blackKeyWidth == BlackKeyWidth(whiteKeyWidth)
      modifies this`blackPianoKeys, this`whitePianoKeys, this`allPianoKeysSorted, this`blackKeyHeight
      modifies this`numOfWhiteKeys, this`builtDims
      ensures Valid()
      ensures !Buildable() ==> KeysState() == old(KeysState())
      ensures Buildable() ==> Blank() && forall i :: 0 <= i < |allPianoKeysSorted| ==> fresh(allPianoKeysSorted[i])
    {
      if layoutWidth > 0 && layoutHeight > 0 {
        RebuildAndRefresh();
      }
    }

    /** The build branch of InitPiano: new keys for the current dimensions, then the stored labels on them. */
    method RebuildAndRefresh()
      requires Buildable() && blackKeyWidth == BlackKeyWidth(whiteKeyWidth)
      modifies this`blackPianoKeys, this`whitePianoKeys, this`allPianoKeysSorted, this`blackKeyHeight
      modifies this`numOfWhiteKeys, this`builtDims
      ensures Valid() && Blank() && forall i :: 0 <= i < |allPianoKeysSorted| ==> fresh(allPianoKeysSorted[i])
    {
      Rebuild();
      label built:
      RefreshHighlightedKeys();
      BlankAfterRefresh@built();
    }

    /** The build branch of InitPiano up to the refresh: the black height, then the keys. */
    method Rebuild()
      requires Buildable() && blackKeyWidth == BlackKeyWidth(whiteKeyWidth)
      modifies this`blackPianoKeys, this`whitePianoKeys, this`allPianoKeysSorted, this`blackKeyHeight
      modifies this`numOfWhiteKeys, this`builtDims
      ensures Valid() && AllUntouched(allPianoKeysSorted)
      ensures forall i :: 0 <= i < |allPianoKeysSorted| ==> fresh(allPianoKeysSorted[i])
    {
      blackKeyHeight := BlackKeyHeight(layoutHeight, black2WhiteKeyHeightRatio);
      var d := CurrentDims();
      builtDims := d;
      var black, white, sorted, count := BuildKeys(d);
      Install(black, white, sorted, count);
      assert AllUntouched(sorted);
    }

    /** The end of InitPiano's build: the new group arrays, sorted list and white-key count become the keyboard's. */
    method Install(black: seq<seq<PianoKey>>, white: seq<seq<PianoKey>>, sorted: seq<PianoKey>, count: int)
      requires Buildable() && blackKeyWidth == BlackKeyWidth(whiteKeyWidth) && builtDims == CurrentDims()
      requires blackKeyHeight == builtDims.blackHeight
      requires Indexed(black, white, sorted, builtDims) && count == WhiteRankStart(WhiteGroups) && AllUntouched(sorted)
      modifies this`blackPianoKeys, this`whitePianoKeys, this`allPianoKeysSorted, this`numOfWhiteKeys
      ensures Valid() && allPianoKeysSorted == sorted
    {
      blackPianoKeys, whitePianoKeys, allPianoKeysSorted, numOfWhiteKeys := black, white, sorted, count;
      assert !Empty() by {
        assert |allPianoKeysSorted| == NumKeys;
      }
    }

    /** Pressing, releasing or labelling keys leaves the keyboard's invariant in force. */
    twostate lemma ValidKept()
      requires old(Valid()) && unchanged(this)
      requires forall i :: 0 <= i < |allPianoKeysSorted| ==> Shape(allPianoKeysSorted[i]) == old(Shape(allPianoKeysSorted[i]))
      ensures Valid()
    {
    }

    /** A refresh of untouched keys leaves them blank. */
    twostate lemma BlankAfterRefresh()
      requires old(AllUntouched(allPianoKeysSorted)) && old(allPianoKeysSorted) == allPianoKeysSorted
      requires old(TierList(Tier1)) == TierList(Tier1) && old(TierList(Tier2)) == TierList(Tier2)
      requires old(TierList(Tier3)) == TierList(Tier3)
      requires forall i :: 0 <= i < |allPianoKeysSorted| ==>
        allPianoKeysSorted[i].isPressed == old(allPianoKeysSorted[i].isPressed) &&
        allPianoKeysSorted[i].fingerID == old(allPianoKeysSorted[i].fingerID)
      requires forall i, t :: 0 <= i < |allPianoKeysSorted| ==>
        Label(allPianoKeysSorted[i], t) == RefreshedLabel(TierList(t), i, old(Label(allPianoKeysSorted[i], t)))
      ensures Blank()
    {
      forall i | 0 <= i < |allPianoKeysSorted|
        ensures !allPianoKeysSorted[i].isPressed && allPianoKeysSorted[i].fingerID == -1
        ensures forall t :: Label(allPianoKeysSorted[i], t) == FreshLabel(TierList(t), i)
      {
        var k := allPianoKeysSorted[i];
        assert old(Untouched(k));
        forall t
          ensures Label(k, t) == FreshLabel(TierList(t), i)
        {
          assert old(Label(k, t)) == "";
          RefreshFromBlank(TierList(t), i);
        }
      }
    }

    /**
     * One tier of refreshHighlightedKeys: with an empty list every key's label
     * of that tier becomes ""; otherwise each entry, in order, writes its text
     * into the key at index midi - 21 when that index is in the list.
     */
    method RefreshTier(t: Tier)
      requires Valid()
      modifies allPianoKeysSorted`highlightedNoteName1, allPianoKeysSorted`highlightedNoteName2
      modifies allPianoKeysSorted`highlightedNoteName3
      ensures Valid()
      ensures forall i :: 0 <= i < |allPianoKeysSorted| ==>
        Label(allPianoKeysSorted[i], t) == RefreshedLabel(TierList(t), i, old(Label(allPianoKeysSorted[i], t)))
      ensures forall i, t' :: 0 <= i < |allPianoKeysSorted| && t' != t ==>
        Label(allPianoKeysSorted[i], t') == old(Label(allPianoKeysSorted[i], t'))
    {
      SortedKeysDistinct();
      if |TierList(t)| == 0 {
        ClearTier(allPianoKeysSorted, t);
      } else {
        WriteTier(allPianoKeysSorted, TierList(t), t);
      }
    }

    /** refreshHighlightedKeys: the three tiers in turn. */
    method RefreshHighlightedKeys()
      requires Valid()
      modifies allPianoKeysSorted`highlightedNoteName1, allPianoKeysSorted`highlightedNoteName2
      modifies allPianoKeysSorted`highlightedNoteName3
      ensures Valid()
      ensures forall i, t :: 0 <= i < |allPianoKeysSorted| ==>
        Label(allPianoKeysSorted[i], t) == RefreshedLabel(TierList(t), i, old(Label(allPianoKeysSorted[i], t)))
    {
      RefreshTier(Tier1);
      RefreshTier(Tier2);
      RefreshTier(Tier3);
    }

    /** After a build the sorted list holds 88 different key objects. */
    lemma SortedKeysDistinct()
      requires Valid()
      ensures forall i, j :: 0 <= i < j < |allPianoKeysSorted| ==> allPianoKeysSorted[i] != allPianoKeysSorted[j]
    {
    }

    /** The key of identity id sits at index midi - 21 of the sorted list and carries what InitPiano writes for id. */
    lemma KeyOfBuilt(id: KeyId)
      requires Valid() && !Empty() && ValidId(id)
      ensures ShapedGroups(blackPianoKeys, whitePianoKeys)
      ensures 0 <= IdMidi(id) - LowestMidi < |allPianoKeysSorted|
      ensures KeyOf(id) == allPianoKeysSorted[IdMidi(id) - LowestMidi]
      ensures Matches(KeyOf(id), Spec(id, builtDims))
    {
      MidiOfKey(id);
    }

    /** Every key of the group arrays is one of the sorted keys. */
    lemma GroupKeysAreKeys()
      requires Valid()
      ensures forall g, p :: 0 <= g < |blackPianoKeys| && 0 <= p < |blackPianoKeys[g]| ==>
        blackPianoKeys[g][p] in allPianoKeysSorted
      ensures forall g, p :: 0 <= g < |whitePianoKeys| && 0 <= p < |whitePianoKeys[g]| ==>
        whitePianoKeys[g][p] in allPianoKeysSorted
    {
      if !Empty() {
        forall g, p | 0 <= g < |blackPianoKeys| && 0 <= p < |blackPianoKeys[g]|
          ensures blackPianoKeys[g][p] in allPianoKeysSorted
        {
          KeyOfBuilt(KeyId(Black, g, p));
        }
        forall g, p | 0 <= g < |whitePianoKeys| && 0 <= p < |whitePianoKeys[g]|
          ensures whitePianoKeys[g][p] in allPianoKeysSorted
        {
          KeyOfBuilt(KeyId(White, g, p));
        }
      }
    }

    /** Index i of the sorted list holds the key with MIDI number 21 + i, as InitPiano set it up. */
    lemma SortedKeyOf(i: int)
      requires Valid() && !Empty() && 0 <= i < |allPianoKeysSorted|
      ensures ValidId(IdOfMidi(LowestMidi + i)) && allPianoKeysSorted[i].midiNoteNum == LowestMidi + i
      ensures Matches(allPianoKeysSorted[i], Spec(IdOfMidi(LowestMidi + i), builtDims))
    {
      KeyOfMidi(LowestMidi + i);
    }

    /** Different identities name different key objects. */
    lemma KeysOneToOne(id1: KeyId, id2: KeyId)
      requires Valid() && !Empty() && ValidId(id1) && ValidId(id2)
      requires KeyOf(id1) == KeyOf(id2)
      ensures id1 == id2
    {
      KeyOfBuilt(id1);
      KeyOfBuilt(id2);
      MidiInjective(id1, id2);
    }

    /** With an even black key width no point lies in the hit areas of two different keys. */
    lemma KeyAreasDisjoint(i: int, j: int, x: int, y: int)
      requires Valid() && !Empty() && SaneDims(builtDims) && builtDims.blackWidth % 2 == 0
      requires 0 <= i < |allPianoKeysSorted| && 0 <= j < |allPianoKeysSorted|
      requires AreaHolds(allPianoKeysSorted[i].areaOfKey, x, y) && AreaHolds(allPianoKeysSorted[j].areaOfKey, x, y)
      ensures i == j
    {
      SortedKeyOf(i);
      SortedKeyOf(j);
      AreasDisjointWhenEven(IdOfMidi(LowestMidi + i), IdOfMidi(LowestMidi + j), builtDims, x, y);
      KeyOfMidi(LowestMidi + i);
      KeyOfMidi(LowestMidi + j);
    }

    /**
     * With an odd black key width the black key on boundary j and the white
     * key in slot j both hold the column j * W + bw / 2 at the top edge.
     */
    lemma KeyAreasOverlapWhenOdd(j: int)
      requires Valid() && !Empty() && SaneDims(builtDims) && builtDims.blackWidth % 2 == 1
      requires builtDims.blackHeight > 0 && BlackAt(j)
      ensures ValidId(BlackIdOn(j)) && ValidId(WhiteIdIn(j)) && ShapedGroups(blackPianoKeys, whitePianoKeys)
      ensures KeyOf(BlackIdOn(j)) != KeyOf(WhiteIdIn(j))
      ensures AreaHolds(KeyOf(BlackIdOn(j)).areaOfKey, j * builtDims.whiteWidth + builtDims.blackWidth / 2, 0)
      ensures AreaHolds(KeyOf(WhiteIdIn(j)).areaOfKey, j * builtDims.whiteWidth + builtDims.blackWidth / 2, 0)
    {
      OddWidthOverlap(j, builtDims);
      KeyOfBuilt(BlackIdOn(j));
      KeyOfBuilt(WhiteIdIn(j));
      MidiOfKey(BlackIdOn(j));
      MidiOfKey(WhiteIdIn(j));
    }

    /** The hit areas of the keys cover exactly the board [0, 52 W) x [0, H). */
    lemma KeysCoverBoard(x: int, y: int)
      requires Valid() && !Empty() && SaneDims(builtDims)
      ensures OnBoard(x, y, builtDims) <==>
        exists i :: 0 <= i < |allPianoKeysSorted| && AreaHolds(allPianoKeysSorted[i].areaOfKey, x, y)
    {
      if OnBoard(x, y, builtDims) {
        BoardCovered(x, y, builtDims);
        var id :| ValidId(id) && AreaHolds(IdArea(id, builtDims), x, y);
        KeyOfBuilt(id);
        assert AreaHolds(allPianoKeysSorted[IdMidi(id) - LowestMidi].areaOfKey, x, y);
      }
      if i :| 0 <= i < |allPianoKeysSorted| && AreaHolds(allPianoKeysSorted[i].areaOfKey, x, y) {
        SortedKeyOf(i);
        HoldsOnlyOnBoard(IdOfMidi(LowestMidi + i), builtDims, x, y);
      }
    }

    /** getPianoWith is 0 before any build and 52 W after one, the right edge of C8 when built for the current width. */
    lemma PianoWidth()
      requires Valid()
      ensures Empty() ==> GetPianoWith() == 0
      ensures !Empty() ==> GetPianoWith() == 52 * whiteKeyWidth
      ensures Buildable() ==>
        ShapedGroups(blackPianoKeys, whitePianoKeys) && KeyOf(KeyId(White, 8, 0)).bounds.right == GetPianoWith()
    {
      if Buildable() {
        KeyOfBuilt(KeyId(White, 8, 0));
      }
    }

    /**
     * setWhiteKeyWidth: stores W and the black width round(0.75 W), then
     * rebuilds when the layout size is positive.
     */
    method SetWhiteKeyWidth(keyWidth: int)
      requires KeysValid()
      modifies this`whiteKeyWidth, this`blackKeyWidth
      modifies this`blackPianoKeys, this`whitePianoKeys, this`allPianoKeysSorted, this`blackKeyHeight
      modifies this`numOfWhiteKeys, this`builtDims
      ensures Valid()
      ensures whiteKeyWidth == keyWidth && blackKeyWidth == BlackKeyWidth(keyWidth)
      ensures !Buildable() ==> KeysState() == old(KeysState())
      ensures Buildable() ==> Blank() && forall i :: 0 <= i < |allPianoKeysSorted| ==> fresh(allPianoKeysSorted[i])
    {
      whiteKeyWidth := keyWidth;
      blackKeyWidth := BlackKeyWidth(whiteKeyWidth);
      InitPiano();
    }

    /** setLayoutDimension: stores the layout size, then rebuilds when it is positive. */
    method SetLayoutDimension(width: int, height: int)
      requires Valid()
      modifies this`layoutWidth, this`layoutHeight
      modifies this`blackPianoKeys, this`whitePianoKeys, this`allPianoKeysSorted, this`blackKeyHeight
      modifies this`numOfWhiteKeys, this`builtDims
      ensures Valid()
      ensures layoutWidth == width && layoutHeight == height
      ensures !Buildable() ==> KeysState() == old(KeysState())
      ensures Buildable() ==> Blank() && forall i :: 0 <= i < |allPianoKeysSorted| ==> fresh(allPianoKeysSorted[i])
    {
      layoutWidth, layoutHeight := width, height;
      InitPiano();
    }

    /**
     * setHighlightedKeys: replaces the three stored lists (a null argument
     * leaves its list empty), then refreshes the labels.
     */
    method SetHighlightedKeys(list1: Option<seq<HighlightedKeyInfo>>, list2: Option<seq<HighlightedKeyInfo>>,
                              list3: Option<seq<HighlightedKeyInfo>>)
      requires Valid()
      modifies this`highlightedKeyInfoList1, this`highlightedKeyInfoList2, this`highlightedKeyInfoList3
      modifies allPianoKeysSorted`highlightedNoteName1, allPianoKeysSorted`highlightedNoteName2
      modifies allPianoKeysSorted`highlightedNoteName3
      ensures Valid()
      ensures highlightedKeyInfoList1 == StoredList(list1) && highlightedKeyInfoList2 == StoredList(list2)
      ensures highlightedKeyInfoList3 == StoredList(list3)
      ensures forall i, t :: 0 <= i < |allPianoKeysSorted| ==>
        Label(allPianoKeysSorted[i], t) == RefreshedLabel(TierList(t), i, old(Label(allPianoKeysSorted[i], t)))
      ensures old(AllBlank(allPianoKeysSorted)) ==>
        forall i, t :: 0 <= i < |allPianoKeysSorted| ==> Label(allPianoKeysSorted[i], t) == FreshLabel(TierList(t), i)
    {
      StoreLists(list1, list2, list3);
      assert forall i, t :: 0 <= i < |allPianoKeysSorted| ==>
        Label(allPianoKeysSorted[i], t) == old(Label(allPianoKeysSorted[i], t));
      RefreshHighlightedKeys();
      forall i, t | 0 <= i < |allPianoKeysSorted| && old(AllBlank(allPianoKeysSorted))
        ensures Label(allPianoKeysSorted[i], t) == FreshLabel(TierList(t), i)
      {
        RefreshFromBlank(TierList(t), i);
      }
    }

    /** The first half of setHighlightedKeys: the three stored lists, a null argument giving an empty one. */
    method StoreLists(list1: Option<seq<HighlightedKeyInfo>>, list2: Option<seq<HighlightedKeyInfo>>,
                      list3: Option<seq<HighlightedKeyInfo>>)
      modifies this`highlightedKeyInfoList1, this`highlightedKeyInfoList2, this`highlightedKeyInfoList3
      ensures highlightedKeyInfoList1 == StoredList(list1) && highlightedKeyInfoList2 == StoredList(list2)
      ensures highlightedKeyInfoList3 == StoredList(list3)
    {
      highlightedKeyInfoList1 := StoredList(list1);
      highlightedKeyInfoList2 := StoredList(list2);
      highlightedKeyInfoList3 := StoredList(list3);
    }

    /** getPianoWith: the number of white keys times the white key width. */
    function GetPianoWith(): int
      reads this`numOfWhiteKeys, this`whiteKeyWidth
    {
      numOfWhiteKeys * whiteKeyWidth
    }
  }

  /** The loop for an empty tier list: every key's label of tier t becomes "". */
  method ClearTier(keys: seq<PianoKey>, t: Tier)
    modifies keys`highlightedNoteName1, keys`highlightedNoteName2, keys`highlightedNoteName3
    ensures forall j :: 0 <= j < |keys| ==> Label(keys[j], t) == ""
    ensures forall j, t' :: 0 <= j < |keys| && t' != t ==> Label(keys[j], t') == old(Label(keys[j], t'))
  {
    var i := 0;
    while i < |keys|
      invariant 0 <= i <= |keys|
      invariant forall j :: 0 <= j < i ==> Label(keys[j], t) == ""
      invariant forall j, t' :: 0 <= j < |keys| && t' != t ==> Label(keys[j], t') == old(Label(keys[j], t'))
    {
      SetLabel(keys[i], t, "");
      i := i + 1;
    }
  }

  /** The loop for a non-empty tier list: each entry in turn writes the key at index midi - 21, if there is one. */
  method WriteTier(keys: seq<PianoKey>, es: seq<HighlightedKeyInfo>, t: Tier)
    requires forall i, j :: 0 <= i < j < |keys| ==> keys[i] != keys[j]
    modifies keys`highlightedNoteName1, keys`highlightedNoteName2, keys`highlightedNoteName3
    ensures forall j :: 0 <= j < |keys| ==> Label(keys[j], t) == WrittenLabel(es, j, old(Label(keys[j], t)))
    ensures forall j, t' :: 0 <= j < |keys| && t' != t ==> Label(keys[j], t') == old(Label(keys[j], t'))
  {
    var n := 0;
    while n < |es|
      invariant 0 <= n <= |es|
      invariant forall j :: 0 <= j < |keys| ==> Label(keys[j], t) == WrittenLabel(es[..n], j, old(Label(keys[j], t)))
      invariant forall j, t' :: 0 <= j < |keys| && t' != t ==> Label(keys[j], t') == old(Label(keys[j], t'))
    {
      WriteEntry(keys, es[n], t);
      forall j | 0 <= j < |keys| ensures Label(keys[j], t) == WrittenLabel(es[..n + 1], j, old(Label(keys[j], t))) {
        WrittenLabelStep(es, n, j, old(Label(keys[j], t)));
      }
      n := n + 1;
    }
    assert es[..n] == es;
  }

  /** One entry of a non-empty tier list: its text goes to the key at index midi - 21, if there is one. */
  method WriteEntry(keys: seq<PianoKey>, e: HighlightedKeyInfo, t: Tier)
    requires forall i, j :: 0 <= i < j < |keys| ==> keys[i] != keys[j]
    modifies keys`highlightedNoteName1, keys`highlightedNoteName2, keys`highlightedNoteName3
    ensures forall j :: 0 <= j < |keys| ==>
      Label(keys[j], t) == if KeyIndex(e) == j then e.tmpDisplayName else old(Label(keys[j], t))
    ensures forall j, t' :: 0 <= j < |keys| && t' != t ==> Label(keys[j], t') == old(Label(keys[j], t'))
  {
    var pianoKeyZIndex := e.midiNoteNum - 21;
    if 0 <= pianoKeyZIndex < |keys| {
      SetLabel(keys[pianoKeyZIndex], t, e.tmpDisplayName);
    }
  }
}
