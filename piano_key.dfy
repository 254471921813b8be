/**
 * One key of the keyboard (PianoKey.java): its identity, its drawable bounds
 * and hit area, the pressed flag and owning finger set by the touch handling,
 * and the three highlight labels; the hit test `contains` and the sort of a
 * key list by MIDI number.
 */
module PianoKeys {
  import opened Options
  import opened Rects

  /** Piano.PianoKeyType */
  datatype KeyType = Black | White

  /** Piano.PianoVoice: the solfege name of a key's pitch class */
  datatype Voice = Do | Re | Mi | Fa | So | La | Si

  /** A key's hit area: rectangles, any of which may be null. */
  type Area = seq<Option<Rect>>

  /** Some non-null rectangle of the area contains the point. */
  predicate AreaHolds(area: Area, x: int, y: int) {
    exists i :: 0 <= i < |area| && area[i].Some? && area[i].value.Contains(x, y)
  }

  class PianoKey {
    var keyType: KeyType
    var voice: Voice
    var group: int
    var positionOfGroup: int
    /** the bounds of the key's drawable, where it is painted */
    var bounds: Rect
    var isPressed: bool
    var areaOfKey: Area
    var letterName: string
    var fingerID: int
    var midiNoteNum: int
    var highlightedNoteName1: string
    var highlightedNoteName2: string
    var highlightedNoteName3: string

    /**
     * A fresh key. The fields Java leaves null or zero until the keyboard
     * builder sets them get placeholder values here.
     */
    constructor ()
      ensures fingerID == -1 && midiNoteNum == -1
      ensures highlightedNoteName1 == "" && highlightedNoteName2 == "" && highlightedNoteName3 == ""
      ensures !isPressed && areaOfKey == []
    {
      keyType := White;
      voice := Do;
      group := 0;
      positionOfGroup := 0;
      bounds := Rect(0, 0, 0, 0);
      isPressed := false;
      areaOfKey := [];
      letterName := "";
      fingerID := -1;
      midiNoteNum := -1;
      highlightedNoteName1 := "";
      highlightedNoteName2 := "";
      highlightedNoteName3 := "";
    }

    method SetType(t: KeyType)
      modifies this`keyType
      ensures keyType == t
    {
      keyType := t;
    }

    method SetVoice(v: Voice)
      modifies this`voice
      ensures voice == v
    {
      voice := v;
    }

    method SetGroup(g: int)
      modifies this`group
      ensures group == g
    {
      group := g;
    }

    method SetPositionOfGroup(p: int)
      modifies this`positionOfGroup
      ensures positionOfGroup == p
    {
      positionOfGroup := p;
    }

    /** Drawable.setBounds on the key's drawable */
    method SetKeyDrawableBounds(r: Rect)
      modifies this`bounds
      ensures bounds == r
    {
      bounds := r;
    }

    method SetPressed(pressed: bool)
      modifies this`isPressed
      ensures isPressed == pressed
    {
      isPressed := pressed;
    }

    method SetAreaOfKey(area: Area)
      modifies this`areaOfKey
      ensures areaOfKey == area
    {
      areaOfKey := area;
    }

    method SetLetterName(name: string)
      modifies this`letterName
      ensures letterName == name
    {
      letterName := name;
    }

    method SetMidiNoteNumber(m: int)
      modifies this`midiNoteNum
      ensures midiNoteNum == m
    {
      midiNoteNum := m;
    }

    /** The point lies in the key's hit area; nothing changes. */
    method Contains(x: int, y: int) returns (isContain: bool)
      ensures isContain == AreaHolds(areaOfKey, x, y)
    {
      isContain := false;
      var areas := areaOfKey;
      var i := 0;
      while i < |areas|
        invariant 0 <= i <= |areas|
        invariant forall j :: 0 <= j < i ==> !(areas[j].Some? && areas[j].value.Contains(x, y))
      {
        if areas[i].Some? && areas[i].value.Contains(x, y) {
          isContain := true;
          break;
        }
        i := i + 1;
      }
    }

    method ResetFingerID()
      modifies this`fingerID
      ensures fingerID == -1
    {
      fingerID := -1;
    }

    method SetFingerID(fingerIndex: int)
      modifies this`fingerID
      ensures fingerID == fingerIndex
    {
      fingerID := fingerIndex;
    }

    method SetHighlightedNoteName1(name: string)
      modifies this`highlightedNoteName1
      ensures highlightedNoteName1 == name
    {
      highlightedNoteName1 := name;
    }

    method SetHighlightedNoteName2(name: string)
      modifies this`highlightedNoteName2
      ensures highlightedNoteName2 == name
    {
      highlightedNoteName2 := name;
    }

    method SetHighlightedNoteName3(name: string)
      modifies this`highlightedNoteName3
      ensures highlightedNoteName3 == name
    {
      highlightedNoteName3 := name;
    }
  }

  /**
   * The comparator of sortListAscendingByMidiId on two MIDI numbers:
   * 0 for equal numbers, -1 when the first is smaller, 1 otherwise.
   */
  function CompareByMidi(m1: int, m2: int): (r: int)
    ensures r == 0 <==> m1 == m2
    ensures r == -1 <==> m1 < m2
    ensures r == 1 <==> m1 > m2
  {
    if m1 == m2 then 0 else if m1 < m2 then -1 else 1
  }

  /** The comparator meets the contract of java.util.Comparator: a total preorder. */
  lemma CompareByMidiIsTotalPreorder(a: int, b: int, c: int)
    ensures CompareByMidi(a, b) == -CompareByMidi(b, a)
    ensures CompareByMidi(a, b) <= 0 && CompareByMidi(b, c) <= 0 ==> CompareByMidi(a, c) <= 0
    ensures CompareByMidi(a, b) == 0 ==> CompareByMidi(a, c) == CompareByMidi(b, c)
    ensures CompareByMidi(a, b) <= 0 || CompareByMidi(b, a) <= 0
  {
  }

  /** The MIDI numbers of a key list, in list order. */
  function Midis(s: seq<PianoKey>): (ms: seq<int>)
    reads s
    ensures |ms| == |s|
  {
    seq(|s|, i requires 0 <= i < |s| reads s => s[i].midiNoteNum)
  }

  lemma MidisAt(s: seq<PianoKey>, i: int)
    requires 0 <= i < |s|
    ensures Midis(s)[i] == s[i].midiNoteNum
  {
  }

  ghost predicate AscendingByMidi(s: seq<PianoKey>)
    reads s`midiNoteNum
  {
    forall i, j :: 0 <= i < j < |s| ==> s[i].midiNoteNum <= s[j].midiNoteNum
  }

  lemma MidisAppend(a: seq<PianoKey>, b: seq<PianoKey>)
    ensures Midis(a + b) == Midis(a) + Midis(b)
  {
    var l, r := Midis(a + b), Midis(a) + Midis(b);
    forall i | 0 <= i < |l| ensures l[i] == r[i] {
      MidisAt(a + b, i);
      if i < |a| { MidisAt(a, i); } else { MidisAt(b, i - |a|); }
    }
  }

  /** Inserting a key at a position that keeps the order keeps the list ascending. */
  lemma InsertKeepsAscending(sorted: seq<PianoKey>, j: int, key: PianoKey)
    requires 0 <= j <= |sorted|
    requires AscendingByMidi(sorted)
    requires j > 0 ==> sorted[j - 1].midiNoteNum <= key.midiNoteNum
    requires forall t :: j <= t < |sorted| ==> sorted[t].midiNoteNum > key.midiNoteNum
    ensures AscendingByMidi(sorted[..j] + [key] + sorted[j..])
  {
  }

  /** Inserting an element adds it to the multiset of the list. */
  lemma InsertAdds<T>(s: seq<T>, j: int, x: T)
    requires 0 <= j <= |s|
    ensures multiset(s[..j] + [x] + s[j..]) == multiset(s) + multiset{x}
  {
    assert s[..j] + s[j..] == s;
  }

  /** The MIDI numbers of a list with a key inserted are those of the list with the key's number inserted. */
  lemma {:induction false} InsertMidis(sorted: seq<PianoKey>, j: int, key: PianoKey)
    requires 0 <= j <= |sorted|
    ensures Midis(sorted[..j] + [key] + sorted[j..]) == Midis(sorted)[..j] + [key.midiNoteNum] + Midis(sorted)[j..]
  {
    var r := sorted[..j] + [key] + sorted[j..];
    var ms := Midis(sorted);
    var t := ms[..j] + [key.midiNoteNum] + ms[j..];
    var mr := Midis(r);
    forall i | 0 <= i < |t| ensures mr[i] == t[i] {
      MidisAt(r, i);
      if i < j { MidisAt(sorted, i); } else if i > j { MidisAt(sorted, i - 1); }
    }
  }

  lemma TakeOneMore<T>(s: seq<T>, i: int)
    requires 0 <= i < |s|
    ensures s[..i + 1] == s[..i] + [s[i]]
  {
  }

  /** The insertion sort's invariant: sorted is an ascending rearrangement of the keys done so far. */
  ghost predicate SortedSoFar(sorted: seq<PianoKey>, done: seq<PianoKey>)
    reads sorted, done
  {
    multiset(sorted) == multiset(done) && multiset(Midis(sorted)) == multiset(Midis(done)) &&
    AscendingByMidi(sorted)
  }

  /** One step of the insertion sort keeps its loop invariant. */
  lemma InsertStep(sorted: seq<PianoKey>, j: int, key: PianoKey, done: seq<PianoKey>)
    requires 0 <= j <= |sorted| && SortedSoFar(sorted, done)
    requires j > 0 ==> sorted[j - 1].midiNoteNum <= key.midiNoteNum
    requires forall t :: j <= t < |sorted| ==> sorted[t].midiNoteNum > key.midiNoteNum
    ensures SortedSoFar(sorted[..j] + [key] + sorted[j..], done + [key])
  {
    InsertKeepsAscending(sorted, j, key);
    InsertAdds(sorted, j, key);
    InsertMidis(sorted, j, key);
    InsertAdds(Midis(sorted), j, key.midiNoteNum);
    MidisAppend(done, [key]);
    assert Midis([key]) == [key.midiNoteNum];
  }

  /**
   * sortListAscendingByMidiId: Collections.sort with the comparator above, a
   * stable sort. Modelled as an insertion sort that returns the sorted list,
   * which the caller stores back in place of the input.
   */
  method SortListAscendingByMidiId(list: seq<PianoKey>) returns (sorted: seq<PianoKey>)
    ensures multiset(sorted) == multiset(list)
    ensures multiset(Midis(sorted)) == multiset(Midis(list))
    ensures AscendingByMidi(sorted)
  {
    sorted := [];
    var i := 0;
    while i < |list|
      invariant 0 <= i <= |list|
      invariant SortedSoFar(sorted, list[..i])
    {
      TakeOneMore(list, i);
      sorted := InsertByMidi(sorted, list[i], list[..i]);
      i := i + 1;
    }
    assert list[..i] == list;
  }

  /** One pass of the insertion sort: the key goes after the last key whose MIDI number is not larger. */
  method InsertByMidi(sorted: seq<PianoKey>, key: PianoKey, ghost done: seq<PianoKey>) returns (next: seq<PianoKey>)
    requires SortedSoFar(sorted, done)
    ensures SortedSoFar(next, done + [key])
  {
    var j := InsertionPoint(sorted, key);
    InsertStep(sorted, j, key, done);
    next := sorted[..j] + [key] + sorted[j..];
  }

  /** The inner loop of the insertion sort: walk left past the keys with a larger MIDI number. */
  method InsertionPoint(sorted: seq<PianoKey>, key: PianoKey) returns (j: int)
    ensures 0 <= j <= |sorted|
    ensures j > 0 ==> sorted[j - 1].midiNoteNum <= key.midiNoteNum
    ensures forall t :: j <= t < |sorted| ==> sorted[t].midiNoteNum > key.midiNoteNum
  {
    j := |sorted|;
    while j > 0 && CompareByMidi(sorted[j - 1].midiNoteNum, key.midiNoteNum) > 0
      invariant 0 <= j <= |sorted|
      invariant forall t :: j <= t < |sorted| ==> sorted[t].midiNoteNum > key.midiNoteNum
    {
      j := j - 1;
    }
  }
}
