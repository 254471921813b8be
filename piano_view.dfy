/**
 * The touch handling and label choice of PianoView.java: onTouchEvent turns
 * pointer actions into presses and releases of keys, keeping the list of
 * pressed keys, each key's pressed flag and owning finger, and the listener
 * callbacks in step; GetTopmostHighlightedKeyNoteName picks the label a key
 * shows; SetWhiteKeyWidth clamps a requested width; SetHighlightedKeys
 * clears and then sets the three label tiers.
 */
module PianoViews {
  import opened Options
  import opened JavaMath
  import opened PianoKeys
  import opened Layout
  import opened Highlight
  import opened Pianos

  /** What onPianoKeyPress and onPianoKeyRelease report about a key. */
  datatype KeyInfo = KeyInfo(keyType: KeyType, voice: Voice, group: int, positionOfGroup: int, midiNoteNum: int)

  /** The listener callbacks, in the order the view makes them. */
  datatype KeyEvent = Press(info: KeyInfo) | Release(info: KeyInfo)

  function InfoOf(k: PianoKey): KeyInfo
    reads k`keyType, k`voice, k`group, k`positionOfGroup, k`midiNoteNum
  {
    KeyInfo(k.keyType, k.voice, k.group, k.positionOfGroup, k.midiNoteNum)
  }

  /** The number of press callbacks in es. */
  function Presses(es: seq<KeyEvent>): nat
    decreases |es|
  {
    if es == [] then 0 else Presses(es[..|es| - 1]) + (if es[|es| - 1].Press? then 1 else 0)
  }

  /** The number of release callbacks in es. */
  function Releases(es: seq<KeyEvent>): nat
    decreases |es|
  {
    if es == [] then 0 else Releases(es[..|es| - 1]) + (if es[|es| - 1].Release? then 1 else 0)
  }

  /** Counting callbacks over two stretches of them. */
  lemma {:induction false} CountsAppend(a: seq<KeyEvent>, b: seq<KeyEvent>)
    ensures Presses(a + b) == Presses(a) + Presses(b)
    ensures Releases(a + b) == Releases(a) + Releases(b)
    decreases |b|
  {
    if b == [] {
      assert a + b == a;
    } else {
      var b' := b[..|b| - 1];
      assert (a + b)[..|a + b| - 1] == a + b';
      assert (a + b)[|a + b| - 1] == b[|b| - 1];
      CountsAppend(a, b');
    }
  }

  /** The release callbacks HandleUp makes for the keys of a list, in list order. */
  function ReleaseAll(keys: seq<PianoKey>): (es: seq<KeyEvent>)
    reads keys`keyType, keys`voice, keys`group, keys`positionOfGroup, keys`midiNoteNum
    ensures |es| == |keys| && forall i :: 0 <= i < |keys| ==> es[i] == Release(InfoOf(keys[i]))
    decreases |keys|
  {
    if keys == [] then [] else ReleaseAll(keys[..|keys| - 1]) + [Release(InfoOf(keys[|keys| - 1]))]
  }

  /** A list's worth of release callbacks holds no press and one release per key. */
  lemma {:induction false} ReleaseAllCounts(keys: seq<PianoKey>)
    ensures Presses(ReleaseAll(keys)) == 0 && Releases(ReleaseAll(keys)) == |keys|
    decreases |keys|
  {
    if keys != [] {
      var init := keys[..|keys| - 1];
      ReleaseAllCounts(init);
      CountsAppend(ReleaseAll(init), [Release(InfoOf(keys[|keys| - 1]))]);
      assert [Release(InfoOf(keys[|keys| - 1]))][..0] == [];
    }
  }

  /** es is es0 followed by at most n callbacks, none of them a press. */
  predicate ReleasedAfter(es0: seq<KeyEvent>, es: seq<KeyEvent>, n: int) {
    es0 <= es && |es| <= |es0| + n && Presses(es[|es0|..]) == 0
  }

  /** es is es0 followed by at most n callbacks, none of them a release. */
  predicate PressedAfter(es0: seq<KeyEvent>, es: seq<KeyEvent>, n: int) {
    es0 <= es && |es| <= |es0| + n && Releases(es[|es0|..]) == 0
  }

  /** One release callback is at most one callback and no press; one press is at most one and no release. */
  lemma OneCallback(es0: seq<KeyEvent>, info: KeyInfo)
    ensures ReleasedAfter(es0, es0 + [Release(info)], 1) && PressedAfter(es0, es0 + [Press(info)], 1)
  {
    assert (es0 + [Release(info)])[|es0|..] == [Release(info)];
    assert (es0 + [Press(info)])[|es0|..] == [Press(info)];
    assert [Release(info)][..0] == [Press(info)][..0] == [];
  }

  /** No callback at all is at most n of them, of either kind. */
  lemma NoCallback(es: seq<KeyEvent>, n: nat)
    ensures ReleasedAfter(es, es, n) && PressedAfter(es, es, n)
  {
    assert es[|es|..] == [];
  }

  /** Runs of releases, or of presses, placed one after another add up. */
  lemma AfterTrans(a: seq<KeyEvent>, b: seq<KeyEvent>, c: seq<KeyEvent>, n: int, m: int)
    ensures ReleasedAfter(a, b, n) && ReleasedAfter(b, c, m) ==> ReleasedAfter(a, c, n + m)
    ensures PressedAfter(a, b, n) && PressedAfter(b, c, m) ==> PressedAfter(a, c, n + m)
  {
    if a <= b && b <= c {
      assert c[|a|..] == b[|a|..] + c[|b|..];
      CountsAppend(b[|a|..], c[|b|..]);
    }
  }

  /**
   * The pressed-key list against the keyboard and the callbacks: each key is
   * listed once and only pressed ones, every pressed key of the keyboard is
   * listed, and presses minus releases is the list's length.
   */
  ghost predicate Listed(list: seq<PianoKey>, keys: seq<PianoKey>, es: seq<KeyEvent>)
    reads list`isPressed, keys`isPressed
  {
    (forall i, j :: 0 <= i < j < |list| ==> list[i] != list[j]) &&
    (forall i :: 0 <= i < |list| ==> list[i].isPressed) &&
    (forall i :: 0 <= i < |keys| && keys[i].isPressed ==> keys[i] in list) &&
    Presses(es) == Releases(es) + |list|
  }

  /** One pointer of a MotionEvent: its id and its position, the x already offset by the scroll. */
  datatype Pointer = Pointer(id: int, x: int, y: int)

  /** MotionEvent.getActionMasked */
  datatype Action = ActionDown | ActionPointerDown | ActionMove | ActionPointerUp | ActionUp | ActionCancel | ActionOther

  /** A touch event: its action, the index of the pointer the action is about, and all pointers. */
  datatype MotionEvent = MotionEvent(action: Action, actionIndex: int, pointers: seq<Pointer>)

  /** The platform hands the view an action index that names one of the event's pointers. */
  predicate WellFormed(e: MotionEvent) {
    (e.action == ActionDown || e.action == ActionPointerDown || e.action == ActionPointerUp) ==>
      0 <= e.actionIndex < |e.pointers|
  }

  /** The platform gives the pointers of one event different ids. */
  predicate DistinctIds(ps: seq<Pointer>) {
    forall i, j :: 0 <= i < j < |ps| ==> ps[i].id != ps[j].id
  }

  /** A key HandleDown may press for the point: not pressed and holding the point. */
  ghost predicate Free(k: PianoKey, x: int, y: int)
    reads k`isPressed, k`areaOfKey
  {
    !k.isPressed && AreaHolds(k.areaOfKey, x, y)
  }

  /** The first free key of a list, if any. */
  ghost function FirstFree(keys: seq<PianoKey>, x: int, y: int): Option<PianoKey>
    reads keys`isPressed, keys`areaOfKey
    decreases |keys|
  {
    if keys == [] then None
    else if Free(keys[0], x, y) then Some(keys[0])
    else FirstFree(keys[1..], x, y)
  }

  /** FirstFree finds the free key no other free key precedes, and finds none only when no key is free. */
  lemma {:induction false} FirstFreeIsFirst(keys: seq<PianoKey>, x: int, y: int)
    ensures FirstFree(keys, x, y).None? <==> forall i :: 0 <= i < |keys| ==> !Free(keys[i], x, y)
    ensures FirstFree(keys, x, y).Some? ==>
      exists i :: 0 <= i < |keys| && keys[i] == FirstFree(keys, x, y).value && Free(keys[i], x, y) &&
        forall j :: 0 <= j < i ==> !Free(keys[j], x, y)
    decreases |keys|
  {
    if keys != [] && !Free(keys[0], x, y) {
      var rest := keys[1..];
      FirstFreeIsFirst(rest, x, y);
      assert forall i :: 1 <= i < |keys| ==> rest[i - 1] == keys[i];
      if FirstFree(rest, x, y).Some? {
        var i :| 0 <= i < |rest| && rest[i] == FirstFree(rest, x, y).value && Free(rest[i], x, y) &&
          forall j :: 0 <= j < i ==> !Free(rest[j], x, y);
        assert keys[i + 1] == FirstFree(keys, x, y).value && forall j :: 0 <= j < i + 1 ==> !Free(keys[j], x, y);
      }
    } else if keys != [] {
      assert keys[0] == FirstFree(keys, x, y).value;
    }
  }

  /** The first free key of two lists in a row: the first list's, or else the second's. */
  lemma {:induction false} FirstFreeAppend(a: seq<PianoKey>, b: seq<PianoKey>, x: int, y: int)
    ensures FirstFree(a + b, x, y) == if FirstFree(a, x, y).Some? then FirstFree(a, x, y) else FirstFree(b, x, y)
    decreases |a|
  {
    if a != [] {
      assert (a + b)[0] == a[0];
      assert (a + b)[1..] == a[1..] + b;
      FirstFreeAppend(a[1..], b, x, y);
    } else {
      assert a + b == b;
    }
  }

  /** Looking at one more key finds what was found already, or else that key when it is free. */
  lemma FirstFreeStep(keys: seq<PianoKey>, i: int, x: int, y: int)
    requires 0 <= i < |keys|
    ensures FirstFree(keys[..i + 1], x, y) ==
      if FirstFree(keys[..i], x, y).Some? then FirstFree(keys[..i], x, y)
      else if Free(keys[i], x, y) then Some(keys[i]) else None
  {
    assert keys[..i + 1] == keys[..i] + [keys[i]];
    FirstFreeAppend(keys[..i], [keys[i]], x, y);
  }

  /** A search that has found a key, or has seen every key, knows the first free key of the whole list. */
  lemma FirstFreeStop(keys: seq<PianoKey>, i: int, x: int, y: int)
    requires 0 <= i <= |keys|
    requires i == |keys| || FirstFree(keys[..i], x, y).Some?
    ensures FirstFree(keys, x, y) == FirstFree(keys[..i], x, y)
  {
    assert keys[..i] + keys[i..] == keys;
    FirstFreeAppend(keys[..i], keys[i..], x, y);
  }

  /** The keys of the group arrays in the order the loops of HandleDown visit them. */
  function Flatten(groups: seq<seq<PianoKey>>): seq<PianoKey>
    decreases |groups|
  {
    if groups == [] then [] else groups[0] + Flatten(groups[1..])
  }

  /** Visiting two runs of groups visits the keys of the first run, then those of the second. */
  lemma {:induction false} FlattenAppend(a: seq<seq<PianoKey>>, b: seq<seq<PianoKey>>)
    ensures Flatten(a + b) == Flatten(a) + Flatten(b)
    decreases |a|
  {
    if a == [] {
      assert a + b == b;
    } else {
      assert (a + b)[1..] == a[1..] + b;
      FlattenAppend(a[1..], b);
    }
  }

  /** Visiting one more group visits its keys after those of the groups before it. */
  lemma FlattenStep(groups: seq<seq<PianoKey>>, g: int)
    requires 0 <= g < |groups|
    ensures Flatten(groups[..g + 1]) == Flatten(groups[..g]) + groups[g]
  {
    assert groups[..g + 1] == groups[..g] + [groups[g]];
    FlattenAppend(groups[..g], [groups[g]]);
    assert Flatten([groups[g]]) == groups[g] + Flatten([]);
  }

  /** The two nested loops of HandleDown: the first free key holding the point, group by group. */
  method FindFree(groups: seq<seq<PianoKey>>, x: int, y: int) returns (found: Option<PianoKey>)
    ensures found == FirstFree(Flatten(groups), x, y)
  {
    found := None;
    var g := 0;
    while g < |groups| && found.None?
      invariant 0 <= g <= |groups|
      invariant found == FirstFree(Flatten(groups[..g]), x, y)
    {
      var keys := groups[g];
      var i := 0;
      while i < |keys| && found.None?
        invariant 0 <= i <= |keys|
        invariant found == FirstFree(keys[..i], x, y)
      {
        var key := keys[i];
        assert FirstFree(keys[..i + 1], x, y) == if found.Some? then found else if Free(key, x, y) then Some(key) else None by {
          FirstFreeStep(keys, i, x, y);
        }
        if !key.isPressed && AreaHolds(key.areaOfKey, x, y) {
          found := Some(key);
        }
        i := i + 1;
      }
      assert found == FirstFree(Flatten(groups[..g + 1]), x, y) by {
        FirstFreeStop(keys, i, x, y);
        FlattenStep(groups, g);
        FirstFreeAppend(Flatten(groups[..g]), keys, x, y);
      }
      g := g + 1;
    }
    assert groups[..g] + groups[g..] == groups;
    FlattenAppend(groups[..g], groups[g..]);
    FirstFreeAppend(Flatten(groups[..g]), Flatten(groups[g..]), x, y);
  }

  /** Every key visited is a key of some group. */
  lemma {:induction false} FlattenMember(groups: seq<seq<PianoKey>>, k: PianoKey)
    requires k in Flatten(groups)
    ensures exists g, p :: 0 <= g < |groups| && 0 <= p < |groups[g]| && groups[g][p] == k
    decreases |groups|
  {
    if k in groups[0] {
      var p :| 0 <= p < |groups[0]| && groups[0][p] == k;
      assert groups[0][p] == k;
    } else {
      FlattenMember(groups[1..], k);
      var g, p :| 0 <= g < |groups[1..]| && 0 <= p < |groups[1..][g]| && groups[1..][g][p] == k;
      assert groups[g + 1][p] == k;
    }
  }

  /** The first listed key the pointer owns, for HandlePointerUp. */
  ghost function FirstOwned(keys: seq<PianoKey>, pid: int): (r: Option<int>)
    reads keys`fingerID
    ensures r.None? <==> forall i :: 0 <= i < |keys| ==> keys[i].fingerID != pid
    ensures r.Some? ==>
      0 <= r.value < |keys| && keys[r.value].fingerID == pid && forall j :: 0 <= j < r.value ==> keys[j].fingerID != pid
    decreases |keys|
  {
    if keys == [] then None
    else
      var r := FirstOwned(keys[..|keys| - 1], pid);
      if r.Some? then r else if keys[|keys| - 1].fingerID == pid then Some(|keys| - 1) else None
  }

  /** A scan that stops at index i, owned by nobody before it, finds FirstOwned. */
  lemma ScanFindsFirstOwned(keys: seq<PianoKey>, pid: int, i: int)
    requires 0 <= i <= |keys|
    requires forall j :: 0 <= j < i ==> keys[j].fingerID != pid
    requires i < |keys| ==> keys[i].fingerID == pid
    ensures FirstOwned(keys, pid) == if i < |keys| then Some(i) else None
  {
  }

  /** A listed key HandleMove releases for the pointer: owned by it and no longer holding its point. */
  ghost predicate Strayed(k: PianoKey, p: Pointer)
    reads k`fingerID, k`areaOfKey
  {
    k.fingerID == p.id && !AreaHolds(k.areaOfKey, p.x, p.y)
  }

  /** The first listed key that strayed from the pointer, for HandleMove. */
  ghost function FirstStrayed(keys: seq<PianoKey>, p: Pointer): (r: Option<int>)
    reads keys`fingerID, keys`areaOfKey
    ensures r.None? <==> forall i :: 0 <= i < |keys| ==> !Strayed(keys[i], p)
    ensures r.Some? ==>
      0 <= r.value < |keys| && Strayed(keys[r.value], p) && forall j :: 0 <= j < r.value ==> !Strayed(keys[j], p)
    decreases |keys|
  {
    if keys == [] then None
    else
      var r := FirstStrayed(keys[..|keys| - 1], p);
      if r.Some? then r else if Strayed(keys[|keys| - 1], p) then Some(|keys| - 1) else None
  }

  /** The list without its i-th key: CopyOnWriteArrayList.remove of a key listed once. */
  function RemoveAt(keys: seq<PianoKey>, i: int): (r: seq<PianoKey>)
    requires 0 <= i < |keys|
    ensures |r| == |keys| - 1
    ensures forall j :: 0 <= j < |r| ==> r[j] == if j < i then keys[j] else keys[j + 1]
  {
    keys[..i] + keys[i + 1..]
  }

  /** Removing a key from the list brings in no other key. */
  lemma RemoveAtKeeps(keys: seq<PianoKey>, i: int)
    requires 0 <= i < |keys|
    ensures forall j :: 0 <= j < |keys| - 1 ==> RemoveAt(keys, i)[j] in keys
  {
    forall j | 0 <= j < |keys| - 1
      ensures RemoveAt(keys, i)[j] in keys
    {
      assert RemoveAt(keys, i)[j] == keys[if j < i then j else j + 1];
    }
  }

  /** Removing one key from the list keeps every other key listed. */
  lemma RemoveAtKeepsOthers(keys: seq<PianoKey>, i: int, k: PianoKey)
    requires 0 <= i < |keys| && k in keys && k != keys[i]
    ensures k in RemoveAt(keys, i)
  {
    var m :| 0 <= m < |keys| && keys[m] == k;
    if m < i {
      assert RemoveAt(keys, i)[m] == k;
    } else {
      assert RemoveAt(keys, i)[m - 1] == k;
    }
  }

  /** How high a tier's label sits: tier 3 above tier 2 above tier 1. */
  function TierRank(t: Tier): nat {
    match t
    case Tier1 => 1
    case Tier2 => 2
    case Tier3 => 3
  }

  /**
   * The width SetWhiteKeyWidth applies for a request `req` when the width is
   * `cur`: a larger request is capped at maxPx, a smaller one floored at minPx,
   * and a request equal to the current width leaves it.
   */
  function ClampedWidth(req: int, cur: int, minPx: int, maxPx: int): (w: int)
    ensures req == cur ==> w == cur
    ensures req > cur ==> w <= req && w <= maxPx && (w < req ==> w == maxPx)
    ensures req < cur ==> w >= req && w >= minPx && (w > req ==> w == minPx)
  {
    if req == cur then cur
    else if req > cur then (if req < maxPx then req else maxPx)
    else (if req > minPx then req else minPx)
  }

  /** A request within [minPx, maxPx] is applied as asked. */
  lemma ClampHonoursRequest(req: int, cur: int, minPx: int, maxPx: int)
    requires minPx <= req <= maxPx
    ensures ClampedWidth(req, cur, minPx, maxPx) == req
  {
  }

  /** Repeating a request changes nothing more. */
  lemma ClampIdempotent(req: int, cur: int, minPx: int, maxPx: int)
    requires minPx <= maxPx
    ensures var w := ClampedWidth(req, cur, minPx, maxPx); ClampedWidth(req, w, minPx, maxPx) == w
  {
  }

  /**
   * A request to grow can shrink the keys: when the width is already above
   * the cap, any larger request lands on the cap.
   */
  lemma GrowRequestCanShrink(req: int, cur: int, minPx: int, maxPx: int)
    requires req > cur > maxPx
    ensures ClampedWidth(req, cur, minPx, maxPx) == maxPx < cur
  {
  }

  /** A request to shrink can grow the keys: below the minimum, any smaller request lands on the minimum. */
  lemma ShrinkRequestCanGrow(req: int, cur: int, minPx: int, maxPx: int)
    requires req < cur < minPx
    ensures ClampedWidth(req, cur, minPx, maxPx) == minPx > cur
  {
  }

  /** The distance between two positions. */
  function Dist(a: int, b: int): nat {
    if a >= b then a - b else b - a
  }

  /**
   * The position SafeScrollTo scrolls to for a request px, with maxScroll the
   * full keyboard width less the visible width: a negative request goes to 0,
   * and any other request above maxScroll to maxScroll. When maxScroll >= 0
   * this is the position of [0, maxScroll] nearest to px. When the keyboard is
   * narrower than the view, maxScroll < 0, and every request that is not
   * negative goes to maxScroll.
   */
  function ScrollTarget(px: int, maxScroll: int): (pos: int)
    ensures maxScroll >= 0 ==>
      0 <= pos <= maxScroll && forall q :: 0 <= q <= maxScroll ==> Dist(pos, px) <= Dist(q, px)
    ensures maxScroll < 0 ==> pos == (if px < 0 then 0 else maxScroll)
  {
    if px < 0 then 0
    else if px > maxScroll then maxScroll
    else px
  }

  /** A request within range is scrolled to as asked. */
  lemma ScrollHonoursRequest(px: int, maxScroll: int)
    requires 0 <= px <= maxScroll
    ensures ScrollTarget(px, maxScroll) == px
  {
    assert Dist(ScrollTarget(px, maxScroll), px) <= Dist(px, px);
  }

  /** With a keyboard at least as wide as the view, scrolling to where the view already is changes nothing. */
  lemma ScrollIdempotent(px: int, maxScroll: int)
    requires maxScroll >= 0
    ensures ScrollTarget(ScrollTarget(px, maxScroll), maxScroll) == ScrollTarget(px, maxScroll)
  {
    ScrollHonoursRequest(ScrollTarget(px, maxScroll), maxScroll);
  }

  /**
   * With a keyboard narrower than the view, the clamp is not idempotent:
   * scrolling by 0 from 0 goes to maxScroll, and scrolling by 0 again returns
   * to 0.
   */
  lemma NarrowScrollAlternates(maxScroll: int)
    requires maxScroll < 0
    ensures ScrollTarget(0, maxScroll) == maxScroll && ScrollTarget(maxScroll, maxScroll) == 0
  {
  }

  /**
   * The body of PianoView.SetHighlightedKeys on a keyboard: clear all three
   * tiers, then set the given lists.
   */
  method Relabel(p: Piano, list1: Option<seq<HighlightedKeyInfo>>, list2: Option<seq<HighlightedKeyInfo>>,
                 list3: Option<seq<HighlightedKeyInfo>>)
    requires p.Valid()
    modifies p`highlightedKeyInfoList1, p`highlightedKeyInfoList2, p`highlightedKeyInfoList3
    modifies p.allPianoKeysSorted`highlightedNoteName1, p.allPianoKeysSorted`highlightedNoteName2
    modifies p.allPianoKeysSorted`highlightedNoteName3
    ensures p.Valid()
    ensures p.TierList(Tier1) == StoredList(list1) && p.TierList(Tier2) == StoredList(list2)
    ensures p.TierList(Tier3) == StoredList(list3)
    ensures forall i, t :: 0 <= i < |p.allPianoKeysSorted| ==>
      Label(p.allPianoKeysSorted[i], t) == FreshLabel(p.TierList(t), i)
  {
    ClearLabels(p);
    SetFromBlank(p, list1, list2, list3);
  }

  /** The second call of PianoView.SetHighlightedKeys, on blank labels: each label is the last entry's text, or "". */
  method SetFromBlank(p: Piano, list1: Option<seq<HighlightedKeyInfo>>, list2: Option<seq<HighlightedKeyInfo>>,
                      list3: Option<seq<HighlightedKeyInfo>>)
    requires p.Valid() && AllBlank(p.allPianoKeysSorted)
    modifies p`highlightedKeyInfoList1, p`highlightedKeyInfoList2, p`highlightedKeyInfoList3
    modifies p.allPianoKeysSorted`highlightedNoteName1, p.allPianoKeysSorted`highlightedNoteName2
    modifies p.allPianoKeysSorted`highlightedNoteName3
    ensures p.Valid()
    ensures p.TierList(Tier1) == StoredList(list1) && p.TierList(Tier2) == StoredList(list2)
    ensures p.TierList(Tier3) == StoredList(list3)
    ensures forall i, t :: 0 <= i < |p.allPianoKeysSorted| ==>
      Label(p.allPianoKeysSorted[i], t) == FreshLabel(p.TierList(t), i)
  {
    p.SetHighlightedKeys(list1, list2, list3);
  }

  /** The first call of PianoView.SetHighlightedKeys: null lists empty every tier and blank every label. */
  method ClearLabels(p: Piano)
    requires p.Valid()
    modifies p`highlightedKeyInfoList1, p`highlightedKeyInfoList2, p`highlightedKeyInfoList3
    modifies p.allPianoKeysSorted`highlightedNoteName1, p.allPianoKeysSorted`highlightedNoteName2
    modifies p.allPianoKeysSorted`highlightedNoteName3
    ensures p.Valid()
    ensures AllBlank(p.allPianoKeysSorted)
  {
    p.SetHighlightedKeys(None, None, None);
    forall i, t | 0 <= i < |p.allPianoKeysSorted|
      ensures Label(p.allPianoKeysSorted[i], t) == ""
    {
      assert p.TierList(t) == [];
    }
  }

  /** kBlack2WhiteKeyHeightRatio: the black key height as a share of the layout height */
  const Black2WhiteKeyHeightRatio: real := 0.6

  /** The view's piano, as a frame. */
  function PianoFrame(piano: Piano?): set<Piano> {
    if piano == null then {} else {piano}
  }

  class PianoView {
    var piano: Piano?
    var pressedKeys: seq<PianoKey>
    /** the callbacks made to the listener so far */
    var events: seq<KeyEvent>
    var layoutWidth: int
    var layoutHeight: int
    var keyPressEnabled: bool
    var highlight1Enabled: bool
    var highlight2Enabled: bool
    var highlight3Enabled: bool
    /** the horizontal scroll offset, getScrollX */
    var scrollX: int

    /** The keys of the current keyboard, in MIDI order. */
    function Keys(): seq<PianoKey>
      reads this`piano, PianoFrame(piano)
    {
      if piano == null then [] else piano.allPianoKeysSorted
    }

    /** The keys HandleDown visits, in its order: all black groups, then all white groups. */
    function ScanOrder(): seq<PianoKey>
      reads this`piano, PianoFrame(piano)
    {
      if piano == null then [] else Flatten(piano.blackPianoKeys) + Flatten(piano.whitePianoKeys)
    }

    /** The keyboard, if there is one, is sound. */
    ghost predicate PianoSound()
      reads this`piano, PianoFrame(piano), Keys()`keyType, Keys()`voice, Keys()`group, Keys()`positionOfGroup
      reads Keys()`bounds, Keys()`areaOfKey, Keys()`letterName, Keys()`midiNoteNum
    {
      piano != null ==> piano.Valid()
    }

    /**
     * The pressed-key list holds each key once and only pressed ones, every
     * pressed key of the keyboard is listed, and presses minus releases is
     * the list's length.
     */
    ghost predicate Listing()
      reads this`piano, PianoFrame(piano), this`pressedKeys, this`events, pressedKeys`isPressed, Keys()`isPressed
    {
      Listed(pressedKeys, Keys(), events)
    }

    /** The view invariant. */
    ghost predicate Valid()
      reads this, PianoFrame(piano), Keys(), pressedKeys`isPressed
    {
      PianoSound() && Listing()
    }

    /** Every listed key belongs to the current keyboard: none is left over from an earlier build. */
    ghost predicate ListedOnKeyboard()
      reads this`piano, PianoFrame(piano), this`pressedKeys
    {
      forall i :: 0 <= i < |pressedKeys| ==> pressedKeys[i] in Keys()
    }

    /** No finger owns two listed keys: the finger-to-key mapping is one to one. */
    ghost predicate OneKeyPerFinger()
      reads this`pressedKeys, pressedKeys`fingerID
    {
      forall i, j :: 0 <= i < j < |pressedKeys| ==> pressedKeys[i].fingerID != pressedKeys[j].fingerID
    }

    /** The keyboard, once built, was built with an even black key width, so no two keys' areas meet. */
    ghost predicate EvenLayout()
      reads this`piano, PianoFrame(piano)
    {
      piano != null && !piano.Empty() ==> SaneDims(piano.builtDims) && piano.builtDims.blackWidth % 2 == 0
    }

    /** The conditions under which each finger owns at most one key. */
    ghost predicate Fingers()
      reads this`piano, PianoFrame(piano), this`pressedKeys, pressedKeys`fingerID
    {
      ListedOnKeyboard() && OneKeyPerFinger() && EvenLayout()
    }

    /** The pointer owns no listed key. */
    ghost predicate OwnsNone(pid: int)
      reads this`pressedKeys, pressedKeys`fingerID
    {
      forall i :: 0 <= i < |pressedKeys| ==> pressedKeys[i].fingerID != pid
    }

    /** Every listed key the pointer owns still holds the pointer's position. */
    ghost predicate OwnedHeld(p: Pointer)
      reads this`pressedKeys, pressedKeys`fingerID, pressedKeys`areaOfKey
    {
      forall i :: 0 <= i < |pressedKeys| && pressedKeys[i].fingerID == p.id ==> AreaHolds(pressedKeys[i].areaOfKey, p.x, p.y)
    }

    /**
     * With an even black width, a pointer still on the key it owns finds no
     * free key under it: no other key holds the point.
     */
    lemma HeldKeyBlocksDown(p: Pointer)
      requires Valid() && Fingers() && OwnedHeld(p) && !OwnsNone(p.id)
      ensures FirstFree(ScanOrder(), p.x, p.y).None?
    {
      var i :| 0 <= i < |pressedKeys| && pressedKeys[i].fingerID == p.id;
      var held := pressedKeys[i];
      var b :| 0 <= b < |Keys()| && Keys()[b] == held;
      var scan := ScanOrder();
      forall m | 0 <= m < |scan|
        ensures !Free(scan[m], p.x, p.y)
      {
        var k := scan[m];
        if AreaHolds(k.areaOfKey, p.x, p.y) {
          ScanKeysAreKeys(k);
          var a :| 0 <= a < |Keys()| && Keys()[a] == k;
          piano.KeyAreasDisjoint(a, b, p.x, p.y);
        }
      }
      FirstFreeIsFirst(scan, p.x, p.y);
    }

    /** A press keeps each finger on one key when the pressing pointer owned none before. */
    twostate lemma FingersAfterPress(key: PianoKey)
      requires old(Valid() && Fingers()) && piano == old(piano) && (piano != null ==> unchanged(piano))
      requires PressedFirst(old(Keys()), Some(key), key.fingerID)
      requires old(!key.isPressed) && forall k :: k in old(pressedKeys) ==> old(k.fingerID) != key.fingerID
      requires forall k :: k in old(Keys()) ==> k.areaOfKey == old(k.areaOfKey)
      ensures Fingers()
    {
      var list0 := old(pressedKeys);
      assert forall i :: 0 <= i < |list0| ==> list0[i] in old(Keys());
      assert ListedOnKeyboard() by {
        assert Keys() == old(Keys());
        assert forall i :: 0 <= i < |list0| ==> pressedKeys[i] == list0[i];
      }
      assert EvenLayout();
      assert key !in list0 by {
        assert forall i :: 0 <= i < |list0| ==> old(list0[i].isPressed);
      }
      OneKeyAfterPress(key);
    }

    /** Appending a key whose finger owns no listed key keeps the finger-to-key mapping one to one. */
    twostate lemma OneKeyAfterPress(key: PianoKey)
      requires old(OneKeyPerFinger()) && pressedKeys == old(pressedKeys) + [key] && key !in old(pressedKeys)
      requires forall k :: k in old(pressedKeys) ==> old(k.fingerID) != key.fingerID && k.fingerID == old(k.fingerID)
      ensures OneKeyPerFinger()
    {
      var list0 := old(pressedKeys);
      forall i, j | 0 <= i < j < |pressedKeys|
        ensures pressedKeys[i].fingerID != pressedKeys[j].fingerID
      {
        assert pressedKeys[i] == list0[i] && list0[i] in old(pressedKeys);
        if j < |list0| {
          assert pressedKeys[j] == list0[j] && list0[j] in old(pressedKeys);
        } else {
          assert pressedKeys[j] == key;
        }
      }
    }

    /** Listing a key for a pointer keeps every other pointer's keys under it. */
    twostate lemma HeldAfterPress(key: PianoKey)
      requires pressedKeys == old(pressedKeys) + [key]
      requires forall k :: k in old(pressedKeys) && k != key ==> k.fingerID == old(k.fingerID) && k.areaOfKey == old(k.areaOfKey)
      ensures forall q: Pointer :: q.id != key.fingerID && old(OwnedHeld(q)) ==> OwnedHeld(q)
    {
      var list0 := old(pressedKeys);
      forall q: Pointer | q.id != key.fingerID && old(OwnedHeld(q))
        ensures OwnedHeld(q)
      {
        forall i | 0 <= i < |pressedKeys| && pressedKeys[i].fingerID == q.id
          ensures AreaHolds(pressedKeys[i].areaOfKey, q.x, q.y)
        {
          assert i < |list0| && list0[i] in old(pressedKeys);
        }
      }
    }

    /** When HandleDown presses nothing, each finger still owns one key and every owned key still holds its pointer. */
    twostate lemma FingersWithoutPress()
      requires old(Valid() && Fingers()) && Valid() && piano == old(piano) && (piano != null ==> unchanged(piano))
      requires PressedFirst(old(Keys()), None, 0)
      requires forall k :: k in old(Keys()) ==> k.areaOfKey == old(k.areaOfKey)
      ensures Fingers()
      ensures forall q: Pointer :: old(OwnedHeld(q)) ==> OwnedHeld(q)
    {
      var list0 := old(pressedKeys);
      assert forall i :: 0 <= i < |list0| ==> list0[i] in old(Keys());
    }

    /** A pointer that owns no listed key trivially has all its keys under it. */
    lemma OwnsNoneHeld(p: Pointer)
      requires OwnsNone(p.id)
      ensures OwnedHeld(p)
    {
    }

    /** Dropping keys from the list keeps each finger on one key and keeps every owned key under its pointer. */
    twostate lemma FingersAfterRelease()
      requires Valid() && piano == old(piano) && (piano != null ==> unchanged(piano))
      requires forall k :: k in pressedKeys ==>
        k in old(pressedKeys) && k.fingerID == old(k.fingerID) && k.areaOfKey == old(k.areaOfKey)
      ensures old(Fingers()) ==> Fingers()
      ensures forall q: Pointer :: old(OwnedHeld(q)) ==> OwnedHeld(q)
    {
      var list0 := old(pressedKeys);
      assert forall i :: 0 <= i < |pressedKeys| ==> pressedKeys[i] in pressedKeys;
      forall q | old(OwnedHeld(q))
        ensures OwnedHeld(q)
      {
        forall i | 0 <= i < |pressedKeys| && pressedKeys[i].fingerID == q.id
          ensures AreaHolds(pressedKeys[i].areaOfKey, q.x, q.y)
        {
          assert pressedKeys[i] in list0;
          var m :| 0 <= m < |list0| && list0[m] == pressedKeys[i];
        }
      }
      if old(Fingers()) {
        assert Keys() == old(Keys());
        forall i, j | 0 <= i < j < |pressedKeys|
          ensures pressedKeys[i].fingerID != pressedKeys[j].fingerID
        {
          assert pressedKeys[i] in list0 && pressedKeys[j] in list0;
          var a :| 0 <= a < |list0| && list0[a] == pressedKeys[i];
          var b :| 0 <= b < |list0| && list0[b] == pressedKeys[j];
          assert a != b;
        }
        forall i | 0 <= i < |pressedKeys|
          ensures pressedKeys[i] in Keys()
        {
          assert pressedKeys[i] in list0;
          var a :| 0 <= a < |list0| && list0[a] == pressedKeys[i];
        }
      }
    }

    /**
     * The release HandleMove or HandlePointerUp makes, given the index it
     * released (or None), keeps each finger on one key and every owned key
     * under its pointer; the released key's finger owns no listed key after.
     */
    twostate lemma FingersAfterReleasedFirst(r: Option<int>)
      requires old(Valid()) && Valid() && piano == old(piano) && (piano != null ==> unchanged(piano))
      requires ReleasedFirst(old(pressedKeys), r)
      ensures old(Fingers()) ==> Fingers()
      ensures forall q: Pointer :: old(OwnedHeld(q)) ==> OwnedHeld(q)
      ensures r.Some? && old(OneKeyPerFinger()) ==> OwnsNone(old(pressedKeys[r.value].fingerID))
    {
      var list0 := old(pressedKeys);
      if r.Some? {
        forall j | 0 <= j < |pressedKeys|
          ensures pressedKeys[j] == list0[if j < r.value then j else j + 1] && pressedKeys[j] != list0[r.value]
        {
        }
        if old(OneKeyPerFinger()) {
          forall j | 0 <= j < |pressedKeys|
            ensures pressedKeys[j].fingerID != old(list0[r.value].fingerID)
          {
            var m := if j < r.value then j else j + 1;
            assert pressedKeys[j] == list0[m] && m != r.value;
          }
        }
      }
      forall k | k in pressedKeys
        ensures k in old(pressedKeys) && k.fingerID == old(k.fingerID) && k.areaOfKey == old(k.areaOfKey)
      {
        var j :| 0 <= j < |pressedKeys| && pressedKeys[j] == k;
      }
      FingersAfterRelease();
    }

    /** HandleMove's release keeps each finger on one key and leaves the moved pointer's keys under it. */
    twostate lemma FingersAfterMove(p: Pointer)
      requires old(Valid()) && Valid() && piano == old(piano) && (piano != null ==> unchanged(piano))
      requires ReleasedFirst(old(pressedKeys), old(FirstStrayed(pressedKeys, p)))
      ensures old(Fingers()) ==> Fingers() && OwnedHeld(p)
      ensures forall q: Pointer :: old(OwnedHeld(q)) ==> OwnedHeld(q)
    {
      FingersAfterReleasedFirst(old(FirstStrayed(pressedKeys, p)));
    }

    /**
     * HandleMove for pointer i of ps: when each finger owned one key and the
     * earlier pointers' keys held them, that stays so and pointer i's keys
     * hold it too. The pointers and the index come as one pair.
     */
    twostate lemma HeldAfterMove(step: (seq<Pointer>, int))
      requires 0 <= step.1 < |step.0|
      requires old(Valid()) && Valid() && piano == old(piano) && (piano != null ==> unchanged(piano))
      requires ReleasedFirst(old(pressedKeys), old(FirstStrayed(pressedKeys, step.0[step.1])))
      ensures old(Fingers() && forall k :: 0 <= k < step.1 ==> OwnedHeld(step.0[k])) ==>
        Fingers() && forall k :: 0 <= k <= step.1 ==> OwnedHeld(step.0[k])
    {
      var (ps, i) := step;
      FingersAfterMove(ps[i]);
      if old(Fingers() && forall k :: 0 <= k < i ==> OwnedHeld(ps[k])) {
        forall k | 0 <= k <= i
          ensures OwnedHeld(ps[k])
        {
          if k < i {
            assert old(OwnedHeld(ps[k]));
          }
        }
      }
    }

    /** HandlePointerUp's release keeps each finger on one key. */
    twostate lemma FingersAfterPointerUp(pid: int)
      requires old(Valid()) && Valid() && piano == old(piano) && (piano != null ==> unchanged(piano))
      requires ReleasedFirst(old(pressedKeys), old(FirstOwned(pressedKeys, pid)))
      ensures old(Fingers()) ==> Fingers()
    {
      FingersAfterReleasedFirst(old(FirstOwned(pressedKeys, pid)));
    }

    /** Pressing an unpressed key of the keyboard, listing it and reporting a press keeps the invariant. */
    twostate lemma ValidAfterPress(key: PianoKey)
      requires old(Valid()) && piano == old(piano) && (piano != null ==> unchanged(piano))
      requires key in Keys() && !old(key.isPressed) && key.isPressed
      requires pressedKeys == old(pressedKeys) + [key] && events == old(events) + [Press(InfoOf(key))]
      requires forall k :: k in old(pressedKeys) + Keys() ==>
        Shape(k) == old(Shape(k)) && (k != key ==> k.isPressed == old(k.isPressed))
      ensures Valid()
    {
      if piano != null {
        piano.ValidKept();
      }
      ListingAfterPress(key);
    }

    /** The Listing half of ValidAfterPress. */
    twostate lemma ListingAfterPress(key: PianoKey)
      requires old(Listing()) && Keys() == old(Keys()) && key in Keys() && !old(key.isPressed) && key.isPressed
      requires pressedKeys == old(pressedKeys) + [key] && events == old(events) + [Press(InfoOf(key))]
      requires forall k :: k in old(pressedKeys) + Keys() && k != key ==> k.isPressed == old(k.isPressed)
      ensures Listing()
    {
      var list0 := old(pressedKeys);
      CountsAppend(old(events), [Press(InfoOf(key))]);
      assert [Press(InfoOf(key))][..0] == [];
      assert key !in list0;
      forall i, j | 0 <= i < j < |pressedKeys|
        ensures pressedKeys[i] != pressedKeys[j]
      {
        if j == |list0| {
          assert pressedKeys[i] in list0;
        }
      }
      forall i | 0 <= i < |pressedKeys|
        ensures pressedKeys[i].isPressed
      {
        if i < |list0| {
          assert pressedKeys[i] in list0 + Keys();
        }
      }
    }

    /** Unpressing the i-th listed key, unlisting it and reporting a release keeps the invariant. */
    twostate lemma ValidAfterRelease(i: int)
      requires old(Valid()) && piano == old(piano) && (piano != null ==> unchanged(piano))
      requires 0 <= i < |old(pressedKeys)| && !old(pressedKeys)[i].isPressed
      requires pressedKeys == RemoveAt(old(pressedKeys), i) && events == old(events) + [Release(InfoOf(old(pressedKeys)[i]))]
      requires forall k :: k in old(pressedKeys) + Keys() ==>
        Shape(k) == old(Shape(k)) && (k != old(pressedKeys)[i] ==> k.isPressed == old(k.isPressed))
      ensures Valid()
    {
      if piano != null {
        piano.ValidKept();
      }
      ListingAfterRelease(i);
    }

    /** The listing half of ValidAfterRelease. */
    twostate lemma ListingAfterRelease(i: int)
      requires old(Listing()) && piano == old(piano) && (piano != null ==> unchanged(piano))
      requires 0 <= i < |old(pressedKeys)| && !old(pressedKeys)[i].isPressed
      requires pressedKeys == RemoveAt(old(pressedKeys), i) && events == old(events) + [Release(InfoOf(old(pressedKeys)[i]))]
      requires forall k :: k in old(pressedKeys) + Keys() && k != old(pressedKeys)[i] ==> k.isPressed == old(k.isPressed)
      ensures Listing()
    {
      var list := old(pressedKeys);
      var e := Release(InfoOf(list[i]));
      CountsAppend(old(events), [e]);
      assert [e][..0] == [];
      forall j | 0 <= j < |pressedKeys|
        ensures pressedKeys[j].isPressed
      {
        var m := if j < i then j else j + 1;
        assert pressedKeys[j] == list[m] && list[m] in list + Keys();
        assert old(list[m].isPressed);
      }
      forall j | 0 <= j < |Keys()| && Keys()[j].isPressed
        ensures Keys()[j] in pressedKeys
      {
        var k := Keys()[j];
        assert k in list + Keys();
        assert k != list[i];
        RemoveAtKeepsOthers(list, i, k);
      }
    }

    /** Unpressing every listed key, reporting one release each and clearing the list keeps the invariant. */
    twostate lemma ValidAfterReleaseAll(rs: seq<KeyEvent>)
      requires old(Valid()) && piano == old(piano) && (piano != null ==> unchanged(piano))
      requires forall k :: k in old(pressedKeys) ==> !k.isPressed
      requires forall k :: k in Keys() ==> Shape(k) == old(Shape(k)) && (k !in old(pressedKeys) ==> k.isPressed == old(k.isPressed))
      requires pressedKeys == [] && events == old(events) + rs
      requires Presses(rs) == 0 && Releases(rs) == |old(pressedKeys)|
      ensures Valid() && forall j :: 0 <= j < |Keys()| ==> !Keys()[j].isPressed
    {
      if piano != null {
        piano.ValidKept();
      }
      CountsAppend(old(events), rs);
      forall j | 0 <= j < |Keys()|
        ensures !Keys()[j].isPressed
      {
        if Keys()[j] in old(pressedKeys) {
          var m :| 0 <= m < |old(pressedKeys)| && old(pressedKeys)[m] == Keys()[j];
        }
      }
    }

    /** Every key HandleDown visits is a key of the keyboard. */
    lemma ScanKeysAreKeys(k: PianoKey)
      requires Valid() && k in ScanOrder()
      ensures k in Keys()
    {
      piano.GroupKeysAreKeys();
      if k in Flatten(piano.blackPianoKeys) {
        FlattenMember(piano.blackPianoKeys, k);
      } else {
        FlattenMember(piano.whitePianoKeys, k);
      }
    }

    /** PianoView(context): no keyboard yet, nothing pressed, key presses and tiers 1 and 3 enabled. */
    constructor ()
      ensures Valid() && piano == null && pressedKeys == [] && events == []
      ensures layoutWidth == 0 && layoutHeight == 0 && keyPressEnabled
      ensures highlight1Enabled && !highlight2Enabled && highlight3Enabled && scrollX == 0
    {
      scrollX := 0;
      piano := null;
      pressedKeys := [];
      events := [];
      layoutWidth, layoutHeight := 0, 0;
      keyPressEnabled := true;
      highlight1Enabled, highlight2Enabled, highlight3Enabled := true, false, true;
    }

    /**
     * The end of onMeasure: store the layout size (the measured size less the
     * padding, both given here) and pass it on to the keyboard, which rebuilds.
     */
    method LayoutMeasured(width: int, height: int)
      requires Valid()
      modifies this`layoutWidth, this`layoutHeight
      modifies PianoFrame(piano)`layoutWidth, PianoFrame(piano)`layoutHeight
      modifies PianoFrame(piano)`blackPianoKeys, PianoFrame(piano)`whitePianoKeys
      modifies PianoFrame(piano)`allPianoKeysSorted, PianoFrame(piano)`blackKeyHeight
      modifies PianoFrame(piano)`numOfWhiteKeys, PianoFrame(piano)`builtDims
      ensures Valid() && piano == old(piano)
      ensures layoutWidth == width && layoutHeight == height
      ensures piano != null ==> piano.layoutWidth == width && piano.layoutHeight == height
      ensures piano != null ==>
        (piano.Buildable() ==> piano.Blank()) && (!piano.Buildable() ==> piano.KeysState() == old(piano.KeysState()))
      ensures piano != null && piano.Buildable() ==>
        forall i :: 0 <= i < |piano.allPianoKeysSorted| ==> fresh(piano.allPianoKeysSorted[i])
    {
      layoutWidth, layoutHeight := width, height;
      if piano != null {
        piano.SetLayoutDimension(layoutWidth, layoutHeight);
      }
    }

    /**
     * The start of onDraw: without a keyboard, create one for the layout size
     * with the default white key width (80 dp, given here in pixels) and the
     * ratio 0.6. An existing keyboard is kept.
     */
    method EnsurePiano(whiteKeyWidthPx: int)
      requires Valid()
      modifies this`piano
      ensures Valid() && pressedKeys == old(pressedKeys) && events == old(events)
      ensures old(piano) != null ==> piano == old(piano)
      ensures old(piano) == null ==>
        piano != null && fresh(piano) && piano.layoutWidth == layoutWidth && piano.layoutHeight == layoutHeight &&
        piano.whiteKeyWidth == whiteKeyWidthPx && piano.black2WhiteKeyHeightRatio == Black2WhiteKeyHeightRatio &&
        (piano.Buildable() ==> piano.Blank()) && (!piano.Buildable() ==> piano.Empty())
      ensures old(piano) == null ==> forall i :: 0 <= i < |piano.allPianoKeysSorted| ==> fresh(piano.allPianoKeysSorted[i])
    {
      if piano == null {
        piano := new Piano(layoutWidth, layoutHeight, whiteKeyWidthPx, Black2WhiteKeyHeightRatio);
      }
    }

    /**
     * KeyDown for an unpressed key of the keyboard: when each finger owned one
     * key and this pointer none, that stays so and the other pointers' keys
     * still hold them.
     */
    method PressKey(p: Pointer, key: PianoKey)
      requires Valid() && key in Keys() && !key.isPressed
      modifies this`pressedKeys, this`events, key`isPressed, key`fingerID
      ensures Valid() && PressedFirst(old(Keys()), Some(key), p.id)
      ensures old(Fingers() && OwnsNone(p.id)) ==>
        Fingers() && forall q: Pointer :: q.id != p.id && old(OwnedHeld(q)) ==> OwnedHeld(q)
    {
      ghost var keep := Fingers() && OwnsNone(p.id);
      KeyDown(p.id, key);
      if keep {
        FingersAfterPress(key);
        HeldAfterPress(key);
      }
    }

    /** HandleBlackKeyDown / HandleWhiteKeyDown: report the press, mark the key pressed by the pointer, list it. */
    method KeyDown(pid: int, key: PianoKey)
      requires Valid() && key in Keys() && !key.isPressed
      modifies this`pressedKeys, this`events, key`isPressed, key`fingerID
      ensures Valid() && PressedFirst(old(Keys()), Some(key), pid)
    {
      MarkPressed(pid, key);
      assert Keys() == old(Keys());
      ValidAfterPress(key);
    }

    /** The writes of KeyDown: the press report, the key's flag and finger, and the list entry. */
    method MarkPressed(pid: int, key: PianoKey)
      modifies this`pressedKeys, this`events, key`isPressed, key`fingerID
      ensures events == old(events) + [Press(InfoOf(key))] && pressedKeys == old(pressedKeys) + [key]
      ensures key.isPressed && key.fingerID == pid
    {
      events := events + [Press(InfoOf(key))];
      key.SetPressed(true);
      key.SetFingerID(pid);
      pressedKeys := pressedKeys + [key];
    }

    /** The release step of HandleMove and HandlePointerUp, given the index their search found (or None). */
    method ReleaseFound(found: Option<int>)
      requires Valid() && (found.Some? ==> 0 <= found.value < |pressedKeys|)
      modifies this`pressedKeys, this`events, pressedKeys`isPressed, pressedKeys`fingerID
      ensures Valid() && ReleasedFirst(old(pressedKeys), found)
      ensures ReleasedAfter(old(events), events, 1) && forall j :: 0 <= j < |pressedKeys| ==> pressedKeys[j] in old(pressedKeys)
    {
      if found.Some? {
        ReleaseAt(found.value);
      } else {
        NoCallback(events, 1);
      }
    }

    /** The release steps HandleMove and HandlePointerUp share: report it, clear the flag and the finger, unlist it. */
    method ReleaseAt(i: int)
      requires Valid() && 0 <= i < |pressedKeys|
      modifies this`pressedKeys, this`events, {pressedKeys[i]}`isPressed, {pressedKeys[i]}`fingerID
      ensures Valid() && ReleasedFirst(old(pressedKeys), Some(i))
      ensures ReleasedAfter(old(events), events, 1) && forall j :: 0 <= j < |pressedKeys| ==> pressedKeys[j] in old(pressedKeys)
      ensures forall k :: k in pressedKeys ==> k in old(pressedKeys) && k.fingerID == old(k.fingerID)
    {
      var key := pressedKeys[i];
      OneCallback(events, InfoOf(key));
      RemoveAtKeeps(pressedKeys, i);
      events := events + [Release(InfoOf(key))];
      key.SetPressed(false);
      key.ResetFingerID();
      pressedKeys := RemoveAt(pressedKeys, i);
      ValidAfterRelease(i);
    }

    /** HandlePointerUp: release the first listed key the lifted pointer owns, if any. */
    method HandlePointerUp(pid: int)
      requires Valid()
      modifies this`pressedKeys, this`events, pressedKeys`isPressed, pressedKeys`fingerID
      ensures Valid()
      ensures ReleasedFirst(old(pressedKeys), old(FirstOwned(pressedKeys, pid)))
      ensures ReleasedAfter(old(events), events, 1) && forall j :: 0 <= j < |pressedKeys| ==> pressedKeys[j] in old(pressedKeys)
      ensures old(Fingers()) ==> Fingers()
    {
      ReleaseOwned(pid);
      FingersAfterPointerUp(pid);
    }

    /** The search and release behind HandlePointerUp. */
    method ReleaseOwned(pid: int)
      requires Valid()
      modifies this`pressedKeys, this`events, pressedKeys`isPressed, pressedKeys`fingerID
      ensures Valid()
      ensures ReleasedFirst(old(pressedKeys), old(FirstOwned(pressedKeys, pid)))
      ensures ReleasedAfter(old(events), events, 1) && forall j :: 0 <= j < |pressedKeys| ==> pressedKeys[j] in old(pressedKeys)
    {
      var i := 0;
      while i < |pressedKeys|
        invariant 0 <= i <= |pressedKeys|
        invariant forall j :: 0 <= j < i ==> pressedKeys[j].fingerID != pid
      {
        if pressedKeys[i].fingerID == pid {
          break;
        }
        i := i + 1;
      }
      ScanFindsFirstOwned(pressedKeys, pid, i);
      ReleaseFound(if i < |pressedKeys| then Some(i) else None);
    }

    /** HandleMove: release the first listed key the pointer owns but has moved off, if any. */
    method HandleMove(p: Pointer)
      requires Valid()
      modifies this`pressedKeys, this`events, pressedKeys`isPressed, pressedKeys`fingerID
      ensures Valid()
      ensures ReleasedFirst(old(pressedKeys), old(FirstStrayed(pressedKeys, p)))
      ensures ReleasedAfter(old(events), events, 1) && forall j :: 0 <= j < |pressedKeys| ==> pressedKeys[j] in old(pressedKeys)
    {
      var i := 0;
      while i < |pressedKeys|
        invariant 0 <= i <= |pressedKeys|
        invariant forall j :: 0 <= j < i ==> !Strayed(pressedKeys[j], p)
      {
        var key := pressedKeys[i];
        if key.fingerID == p.id && !AreaHolds(key.areaOfKey, p.x, p.y) {
          break;
        }
        i := i + 1;
      }
      var found := if i < |pressedKeys| then Some(i) else None;
      assert found == FirstStrayed(pressedKeys, p);
      ReleaseFound(found);
    }

    /**
     * The effect of HandleMove and HandlePointerUp, given the index of the
     * listed key to release: with none, nothing changes; otherwise that key is
     * reported, unpressed, without a finger and off the list, and no other
     * listed key changes.
     */
    twostate predicate ReleasedFirst(list0: seq<PianoKey>, r: Option<int>)
      reads this`pressedKeys, this`events, list0`isPressed, list0`fingerID, list0`areaOfKey
    {
      (forall k :: k in list0 ==> k.areaOfKey == old(k.areaOfKey)) &&
      (r.None? ==> events == old(events) && pressedKeys == list0) &&
      (r.Some? ==>
        0 <= r.value < |list0| &&
        events == old(events) + [Release(old(InfoOf(list0[r.value])))] &&
        pressedKeys == RemoveAt(list0, r.value) &&
        !list0[r.value].isPressed && list0[r.value].fingerID == -1) &&
      forall k :: k in list0 && (r.None? || k != list0[r.value]) ==>
        k.isPressed == old(k.isPressed) && k.fingerID == old(k.fingerID)
    }

    /**
     * The effect of HandleDown, given the key to press: with none, nothing
     * changes; otherwise that key of the keyboard is reported, pressed, owned
     * by the pointer and listed; no other key of the keyboard changes.
     */
    twostate predicate PressedFirst(keys0: seq<PianoKey>, f: Option<PianoKey>, pid: int)
      reads this`pressedKeys, this`events, keys0`isPressed, keys0`fingerID
    {
      (f.None? ==> events == old(events) && pressedKeys == old(pressedKeys)) &&
      (f.Some? ==>
        f.value in keys0 &&
        events == old(events) + [Press(old(InfoOf(f.value)))] &&
        pressedKeys == old(pressedKeys) + [f.value] &&
        f.value.isPressed && f.value.fingerID == pid) &&
      forall k :: k in keys0 && (f.None? || k != f.value) ==>
        k.isPressed == old(k.isPressed) && k.fingerID == old(k.fingerID)
    }

    /** HandleDown: press, for the pointer, the first key in scan order that is not pressed and holds its point. */
    method HandleDown(p: Pointer)
      requires Valid()
      modifies this`pressedKeys, this`events, Keys()`isPressed, Keys()`fingerID
      ensures Valid()
      ensures PressedFirst(old(Keys()), old(FirstFree(ScanOrder(), p.x, p.y)), p.id)
      ensures PressedAfter(old(events), events, 1) && old(pressedKeys) <= pressedKeys
      ensures old(Fingers() && OwnedHeld(p)) ==>
        Fingers() && forall q: Pointer :: q.id != p.id && old(OwnedHeld(q)) ==> OwnedHeld(q)
    {
      var found: Option<PianoKey> := None;
      if piano != null {
        found := FindFree(piano.blackPianoKeys + piano.whitePianoKeys, p.x, p.y);
        FlattenAppend(piano.blackPianoKeys, piano.whitePianoKeys);
      }
      ViewUnchanged();
      PressFound(p, found);
    }

    /** A step that writes no field of the view, its keyboard or any key leaves everything the view states as it was. */
    twostate lemma ViewUnchanged()
      requires old(Valid()) && unchanged(this) && unchanged(PianoFrame(piano)) && unchanged(old(Keys())) && unchanged(old(pressedKeys))
      ensures Keys() == old(Keys()) && ScanOrder() == old(ScanOrder())
      ensures Valid() && Fingers() == old(Fingers())
      ensures forall x, y :: FirstFree(ScanOrder(), x, y) == old(FirstFree(ScanOrder(), x, y))
      ensures forall q: Pointer :: OwnedHeld(q) == old(OwnedHeld(q))
    {
      assert Keys() == old(Keys());
      assert Valid();
      ScanUnchanged();
    }

    /** The scan-order half of ViewUnchanged: HandleDown's search sees the same keys in the same state. */
    twostate lemma ScanUnchanged()
      requires old(Valid()) && Valid() && unchanged(this) && unchanged(PianoFrame(piano)) && unchanged(old(Keys()))
      ensures ScanOrder() == old(ScanOrder())
      ensures forall x, y :: FirstFree(ScanOrder(), x, y) == old(FirstFree(ScanOrder(), x, y))
    {
      forall k | k in ScanOrder()
        ensures k in old(Keys()) && k.isPressed == old(k.isPressed) && k.areaOfKey == old(k.areaOfKey)
      {
        ScanKeysAreKeys(k);
      }
    }

    /** The press step of HandleDown, given the key its search found (or None). */
    method PressFound(p: Pointer, found: Option<PianoKey>)
      requires Valid() && found == FirstFree(ScanOrder(), p.x, p.y)
      modifies this`pressedKeys, this`events, Keys()`isPressed, Keys()`fingerID
      ensures Valid()
      ensures PressedFirst(old(Keys()), found, p.id)
      ensures PressedAfter(old(events), events, 1) && old(pressedKeys) <= pressedKeys
      ensures old(Fingers() && OwnedHeld(p)) ==>
        Fingers() && forall q: Pointer :: q.id != p.id && old(OwnedHeld(q)) ==> OwnedHeld(q)
    {
      ghost var keep := Fingers() && OwnedHeld(p);
      if found.Some? {
        if keep && !OwnsNone(p.id) {
          HeldKeyBlocksDown(p);
        }
        FirstFreeIsFirst(ScanOrder(), p.x, p.y);
        ScanKeysAreKeys(found.value);
        OneCallback(events, InfoOf(found.value));
        PressKey(p, found.value);
      } else {
          if keep {
          FingersWithoutPress();
        }
      }
    }

    /**
     * HandleUp: report a release for every listed key, in list order, unpress
     * them all and clear the list; the keys keep their fingers.
     */
    method HandleUp()
      requires Valid()
      modifies this`pressedKeys, this`events, pressedKeys`isPressed
      ensures Valid()
      ensures events == old(events) + ReleaseAll(old(pressedKeys)) && pressedKeys == []
      ensures forall k :: k in old(pressedKeys) ==> !k.isPressed && k.fingerID == old(k.fingerID)
      ensures forall i :: 0 <= i < |Keys()| ==> !Keys()[i].isPressed
      ensures old(EvenLayout()) ==> Fingers()
    {
      if |pressedKeys| > 0 {
        ReleaseListed();
        ReleaseAllCounts(old(pressedKeys));
        ValidAfterReleaseAll(ReleaseAll(old(pressedKeys)));
      }
    }

    /** The body of HandleUp: report and unpress each listed key in list order, then clear the list. */
    method ReleaseListed()
      modifies this`events, this`pressedKeys, pressedKeys`isPressed
      ensures events == old(events) + ReleaseAll(old(pressedKeys)) && pressedKeys == []
      ensures forall k :: k in old(pressedKeys) ==> !k.isPressed && k.fingerID == old(k.fingerID)
      ensures forall k :: k in Keys() ==> Shape(k) == old(Shape(k)) && (k !in old(pressedKeys) ==> k.isPressed == old(k.isPressed))
    {
      ReleaseEach(pressedKeys);
      pressedKeys := [];
    }

    /** The loop of HandleUp: one release report per key of the list, in order, each key unpressed. */
    method ReleaseEach(list: seq<PianoKey>)
      modifies this`events, list`isPressed
      ensures events == old(events) + ReleaseAll(list)
      ensures forall k :: k in list ==> !k.isPressed
    {
      var i := 0;
      while i < |list|
        invariant 0 <= i <= |list|
        invariant events == old(events) + old(ReleaseAll(list[..i]))
        invariant forall j :: 0 <= j < i ==> !list[j].isPressed
      {
        var key := list[i];
        events := events + [Release(InfoOf(key))];
        key.SetPressed(false);
        assert list[..i + 1][..i] == list[..i];
        i := i + 1;
      }
      assert list[..i] == list;
    }

    /**
     * One turn of MoveEach: HandleMove for the i-th pointer; when each finger
     * owned one key and the earlier pointers' keys held them, that stays so
     * and the i-th pointer's keys hold it too.
     */
    method MoveStep(ps: seq<Pointer>, i: int)
      requires Valid() && 0 <= i < |ps|
      modifies this`pressedKeys, this`events, pressedKeys`isPressed, pressedKeys`fingerID
      ensures Valid() && ReleasedAfter(old(events), events, 1)
      ensures forall j :: 0 <= j < |pressedKeys| ==> pressedKeys[j] in old(pressedKeys)
      ensures old(Fingers() && forall k :: 0 <= k < i ==> OwnedHeld(ps[k])) ==>
        Fingers() && forall k :: 0 <= k <= i ==> OwnedHeld(ps[k])
    {
      HandleMove(ps[i]);
      HeldAfterMove((ps, i));
    }

    /** The first loop of onTouchEvent for ACTION_MOVE: HandleMove for each pointer in turn. */
    method MoveEach(ps: seq<Pointer>)
      requires Valid()
      modifies this`pressedKeys, this`events, pressedKeys`isPressed, pressedKeys`fingerID
      ensures Valid() && ReleasedAfter(old(events), events, |ps|)
      ensures forall j :: 0 <= j < |pressedKeys| ==> pressedKeys[j] in old(pressedKeys)
      ensures old(Fingers()) ==> Fingers() && forall k :: 0 <= k < |ps| ==> OwnedHeld(ps[k])
    {
      ghost var keep := Fingers();
      NoCallback(events, 0);
      var i := 0;
      while i < |ps|
        invariant 0 <= i <= |ps| && Valid() && ReleasedAfter(old(events), events, i)
        invariant forall j :: 0 <= j < |pressedKeys| ==> pressedKeys[j] in old(pressedKeys)
        invariant keep ==> Fingers() && forall k :: 0 <= k < i ==> OwnedHeld(ps[k])
      {
        ghost var before := events;
        MoveStep(ps, i);
        AfterTrans(old(events), before, events, i, 1);
        i := i + 1;
      }
    }

    /** The second loop of onTouchEvent for ACTION_MOVE: HandleDown for each pointer in turn. */
    method DownEach(ps: seq<Pointer>)
      requires Valid()
      modifies this`pressedKeys, this`events, Keys()`isPressed, Keys()`fingerID
      ensures Valid() && PressedAfter(old(events), events, |ps|) && old(pressedKeys) <= pressedKeys
      ensures old(Fingers()) && DistinctIds(ps) && (forall k :: 0 <= k < |ps| ==> old(OwnedHeld(ps[k]))) ==> Fingers()
    {
      ghost var keep := Fingers() && DistinctIds(ps) && forall k :: 0 <= k < |ps| ==> OwnedHeld(ps[k]);
      NoCallback(events, 0);
      var i := 0;
      while i < |ps|
        invariant 0 <= i <= |ps| && Valid() && Keys() == old(Keys())
        invariant PressedAfter(old(events), events, i) && old(pressedKeys) <= pressedKeys
        invariant keep ==> Fingers() && forall k :: i <= k < |ps| ==> OwnedHeld(ps[k])
      {
        ghost var before := events;
        DownStep(ps, i);
        AfterTrans(old(events), before, events, i, 1);
        i := i + 1;
      }
    }

    /**
     * One turn of DownEach: HandleDown for the i-th pointer; when each finger
     * owned one key and the later pointers' keys held them, that stays so.
     */
    method DownStep(ps: seq<Pointer>, i: int)
      requires Valid() && 0 <= i < |ps|
      modifies this`pressedKeys, this`events, Keys()`isPressed, Keys()`fingerID
      ensures Valid() && Keys() == old(Keys()) && PressedAfter(old(events), events, 1) && old(pressedKeys) <= pressedKeys
      ensures old(Fingers() && DistinctIds(ps) && forall k :: i <= k < |ps| ==> OwnedHeld(ps[k])) ==>
        Fingers() && forall k :: i < k < |ps| ==> OwnedHeld(ps[k])
    {
      ghost var keep := Fingers() && DistinctIds(ps) && forall k :: i <= k < |ps| ==> OwnedHeld(ps[k]);
      HandleDown(ps[i]);
      if keep {
        forall k | i < k < |ps|
          ensures OwnedHeld(ps[k])
        {
          assert old(OwnedHeld(ps[k])) && ps[k].id != ps[i].id;
        }
      }
    }

    /**
     * ACTION_MOVE in onTouchEvent: first release, pointer by pointer, the keys
     * the pointers have strayed from, then press for every pointer.
     */
    method HandleMoveEvent(ps: seq<Pointer>)
      requires Valid()
      modifies this`pressedKeys, this`events, pressedKeys`isPressed, pressedKeys`fingerID, Keys()`isPressed, Keys()`fingerID
      ensures Valid()
      ensures exists mid :: ReleasedAfter(old(events), mid, |ps|) && PressedAfter(mid, events, |ps|)
      ensures old(Fingers()) && DistinctIds(ps) ==> Fingers()
    {
      MoveEach(ps);
      ghost var mid := events;
      DownEach(ps);
      assert ReleasedAfter(old(events), mid, |ps|) && PressedAfter(mid, events, |ps|);
    }

    /**
     * onTouchEvent: with key presses disabled, nothing; otherwise a down
     * presses for the action's pointer, a pointer up releases that pointer's
     * key, up and cancel release every key, a move first releases strayed
     * keys and then presses for every pointer. Only up and cancel, and a
     * disabled view, answer false.
     */
    method OnTouchEvent(e: MotionEvent) returns (handled: bool)
      requires Valid() && WellFormed(e)
      modifies this`pressedKeys, this`events, pressedKeys`isPressed, pressedKeys`fingerID, Keys()`isPressed, Keys()`fingerID
      ensures Valid()
      ensures handled <==> keyPressEnabled && e.action != ActionUp && e.action != ActionCancel
      ensures !keyPressEnabled || e.action == ActionOther ==> events == old(events) && pressedKeys == old(pressedKeys)
      ensures !keyPressEnabled || e.action == ActionOther ==>
        forall k :: k in old(pressedKeys) + old(Keys()) ==> k.isPressed == old(k.isPressed) && k.fingerID == old(k.fingerID)
      ensures keyPressEnabled && (e.action == ActionDown || e.action == ActionPointerDown) ==>
        var p := e.pointers[e.actionIndex];
        PressedFirst(old(Keys()), old(FirstFree(ScanOrder(), p.x, p.y)), p.id)
      ensures keyPressEnabled && e.action == ActionPointerUp ==>
        ReleasedFirst(old(pressedKeys), old(FirstOwned(pressedKeys, e.pointers[e.actionIndex].id)))
      ensures keyPressEnabled && (e.action == ActionUp || e.action == ActionCancel) ==>
        events == old(events) + ReleaseAll(old(pressedKeys)) && pressedKeys == [] &&
        forall i :: 0 <= i < |Keys()| ==> !Keys()[i].isPressed
      ensures keyPressEnabled && (e.action == ActionUp || e.action == ActionCancel) ==>
        forall k :: k in old(pressedKeys) ==> k.fingerID == old(k.fingerID)
      ensures keyPressEnabled && e.action == ActionMove ==>
        exists mid :: ReleasedAfter(old(events), mid, |e.pointers|) && PressedAfter(mid, events, |e.pointers|)
      ensures (old(Fingers()) && DistinctIds(e.pointers) &&
               ((e.action == ActionDown || e.action == ActionPointerDown) ==> old(OwnsNone(e.pointers[e.actionIndex].id))))
              ==> Fingers()
    {
      if !keyPressEnabled {
        return false;
      }
      match e.action {
        case ActionDown | ActionPointerDown =>
          DownEvent(e.pointers[e.actionIndex]);
        case ActionMove =>
          HandleMoveEvent(e.pointers);
        case ActionPointerUp =>
          HandlePointerUp(e.pointers[e.actionIndex].id);
        case ActionUp | ActionCancel =>
          HandleUp();
          return false;
        case ActionOther =>
      }
      return true;
    }

    /** ACTION_DOWN and ACTION_POINTER_DOWN: HandleDown for a pointer that, when fingers are one to one, owns no key yet. */
    method DownEvent(p: Pointer)
      requires Valid()
      modifies this`pressedKeys, this`events, Keys()`isPressed, Keys()`fingerID
      ensures Valid()
      ensures PressedFirst(old(Keys()), old(FirstFree(ScanOrder(), p.x, p.y)), p.id)
      ensures old(Fingers() && OwnsNone(p.id)) ==> Fingers()
    {
      if Fingers() && OwnsNone(p.id) {
        OwnsNoneHeld(p);
      }
      HandleDown(p);
    }

    /** Whether the view shows labels of tier t: mSelectedKeysHighlight1..3Enabled. */
    predicate TierEnabled(t: Tier)
      reads this`highlight1Enabled, this`highlight2Enabled, this`highlight3Enabled
    {
      match t
      case Tier1 => highlight1Enabled
      case Tier2 => highlight2Enabled
      case Tier3 => highlight3Enabled
    }

    /**
     * GetTopmostHighlightedKeyNoteName: the label of the highest enabled tier
     * whose label on the key is not empty, or "" when there is none.
     */
    function GetTopmostHighlightedKeyNoteName(k: PianoKey): (name: string)
      reads this`highlight1Enabled, this`highlight2Enabled, this`highlight3Enabled
      reads k`highlightedNoteName1, k`highlightedNoteName2, k`highlightedNoteName3
    {
      if highlight3Enabled && k.highlightedNoteName3 != "" then k.highlightedNoteName3
      else if highlight2Enabled && k.highlightedNoteName2 != "" then k.highlightedNoteName2
      else if highlight1Enabled && k.highlightedNoteName1 != "" then k.highlightedNoteName1
      else ""
    }

    /** The label shown is "" exactly when no enabled tier has one, and otherwise the highest enabled tier's. */
    lemma TopmostLabel(k: PianoKey)
      ensures GetTopmostHighlightedKeyNoteName(k) == "" <==> forall t :: TierEnabled(t) ==> Label(k, t) == ""
      ensures GetTopmostHighlightedKeyNoteName(k) != "" ==>
        exists t :: TierEnabled(t) && Label(k, t) == GetTopmostHighlightedKeyNoteName(k) &&
          forall u :: TierEnabled(u) && TierRank(u) > TierRank(t) ==> Label(k, u) == ""
    {
      var name := GetTopmostHighlightedKeyNoteName(k);
      if name != "" {
        var t := if highlight3Enabled && Label(k, Tier3) != "" then Tier3
          else if highlight2Enabled && Label(k, Tier2) != "" then Tier2 else Tier1;
        assert TierEnabled(t) && Label(k, t) == name;
      } else {
        assert forall t :: TierEnabled(t) ==> Label(k, t) == "" by {
          assert Label(k, Tier1) == k.highlightedNoteName1 && Label(k, Tier2) == k.highlightedNoteName2;
          assert Label(k, Tier3) == k.highlightedNoteName3;
        }
      }
    }

    /**
     * A Down whose pointer id already owns a listed key presses a second key
     * for it, and the finger then owns two keys. The view reaches such a
     * state by itself: an ACTION_UP that arrives while key presses are
     * disabled changes nothing (OnTouchEvent), so the keys the pointer owned
     * stay listed and owned, and the next gesture's ACTION_DOWN, once presses
     * are enabled again, reuses the pointer id.
     */
    twostate lemma DownForOwnerBreaksFingers(p: Pointer)
      requires old(Valid() && Fingers()) && !old(OwnsNone(p.id))
      requires old(FirstFree(ScanOrder(), p.x, p.y)).Some?
      requires PressedFirst(old(Keys()), old(FirstFree(ScanOrder(), p.x, p.y)), p.id)
      ensures !OneKeyPerFinger() && !Fingers()
    {
      var list0 := old(pressedKeys);
      var owned :| 0 <= owned < |list0| && old(list0[owned].fingerID) == p.id;
      assert list0[owned] in old(Keys());
      assert pressedKeys[owned] == list0[owned] && pressedKeys[|list0|].fingerID == p.id;
      assert pressedKeys[owned].fingerID == p.id;
    }

    /** SetKeyPressEnabled: turn touch handling on or off. */
    method SetKeyPressEnabled(enabled: bool)
      requires Valid()
      modifies this`keyPressEnabled
      ensures Valid() && keyPressEnabled == enabled
    {
      keyPressEnabled := enabled;
    }

    /** GetFullPianoWidth: the keyboard's width, 0 without a keyboard. */
    function GetFullPianoWidth(): int
      reads this`piano, PianoFrame(piano)
    {
      if piano != null then piano.GetPianoWith() else 0
    }

    /** Without a keyboard or before its first build the width is 0; after a build it is 52 white keys. */
    lemma FullPianoWidth()
      requires Valid()
      ensures GetFullPianoWidth() == if piano == null || piano.Empty() then 0 else 52 * piano.whiteKeyWidth
    {
      if piano != null {
        piano.PianoWidth();
      }
    }

    /**
     * SafeScrollTo: scroll to px, clamped as ScrollTarget says against the
     * full keyboard width less the visible (layout) width; View.scrollTo
     * stores the position as given.
     */
    method SafeScrollTo(px: int)
      requires Valid()
      modifies this`scrollX
      ensures Valid() && scrollX == ScrollTarget(px, GetFullPianoWidth() - layoutWidth)
      ensures GetFullPianoWidth() >= layoutWidth ==> 0 <= scrollX <= GetFullPianoWidth() - layoutWidth
    {
      var maxScroll := GetFullPianoWidth() - layoutWidth;
      var position := px;
      if px < 0 {
        position := 0;
      } else if px > maxScroll {
        position := maxScroll;
      }
      scrollX := position;
    }

    /** SafeScrollBy: SafeScrollTo from the current offset plus delta. */
    method SafeScrollBy(delta: int)
      requires Valid()
      modifies this`scrollX
      ensures Valid() && scrollX == ScrollTarget(old(scrollX) + delta, GetFullPianoWidth() - layoutWidth)
      ensures GetFullPianoWidth() >= layoutWidth ==> 0 <= scrollX <= GetFullPianoWidth() - layoutWidth
    {
      SafeScrollTo(scrollX + delta);
    }

    /**
     * SetWhiteKeyWidth: with a keyboard, clamp the request between minWidthPx
     * (the platform's conversion of the minimum width in dp) and an eighth of
     * the layout width, and apply it only when it differs from the current width.
     */
    method SetWhiteKeyWidth(req: int, minWidthPx: int)
      requires Valid()
      modifies PianoFrame(piano)`whiteKeyWidth, PianoFrame(piano)`blackKeyWidth
      modifies PianoFrame(piano)`blackPianoKeys, PianoFrame(piano)`whitePianoKeys
      modifies PianoFrame(piano)`allPianoKeysSorted, PianoFrame(piano)`blackKeyHeight
      modifies PianoFrame(piano)`numOfWhiteKeys, PianoFrame(piano)`builtDims
      ensures Valid() && piano == old(piano)
      ensures piano != null ==>
        piano.whiteKeyWidth == ClampedWidth(req, old(piano.whiteKeyWidth), minWidthPx, Quot(layoutWidth, 8))
      ensures piano != null && piano.whiteKeyWidth == old(piano.whiteKeyWidth) ==> unchanged(piano)
      ensures piano != null && piano.whiteKeyWidth != old(piano.whiteKeyWidth) ==>
        (piano.Buildable() ==> piano.Blank()) && (!piano.Buildable() ==> piano.KeysState() == old(piano.KeysState()))
      ensures piano != null && piano.whiteKeyWidth != old(piano.whiteKeyWidth) && piano.Buildable() ==>
        forall i :: 0 <= i < |piano.allPianoKeysSorted| ==> fresh(piano.allPianoKeysSorted[i])
      ensures piano != null ==> piano.layoutWidth == old(piano.layoutWidth) && piano.layoutHeight == old(piano.layoutHeight)
    {
      if piano != null {
        var maxWidthPx := Quot(layoutWidth, 8);
        var current := piano.whiteKeyWidth;
        if req != current {
          var widthToSet := if req > current then (if req < maxWidthPx then req else maxWidthPx)
            else (if req > minWidthPx then req else minWidthPx);
          if widthToSet != current {
            piano.SetWhiteKeyWidth(widthToSet);
          }
        }
      }
    }

    /**
     * SetHighlightedKeys: with a keyboard, clear all three tiers and then set
     * the given lists, so each key shows only what the new lists give it.
     */
    method SetHighlightedKeys(list1: Option<seq<HighlightedKeyInfo>>, list2: Option<seq<HighlightedKeyInfo>>,
                              list3: Option<seq<HighlightedKeyInfo>>)
      requires Valid()
      modifies PianoFrame(piano)`highlightedKeyInfoList1, PianoFrame(piano)`highlightedKeyInfoList2
      modifies PianoFrame(piano)`highlightedKeyInfoList3
      modifies Keys()`highlightedNoteName1, Keys()`highlightedNoteName2, Keys()`highlightedNoteName3
      ensures Valid() && piano == old(piano) && Keys() == old(Keys())
      ensures piano != null ==>
        piano.layoutWidth == old(piano.layoutWidth) && piano.layoutHeight == old(piano.layoutHeight) &&
        piano.whiteKeyWidth == old(piano.whiteKeyWidth) && piano.blackKeyWidth == old(piano.blackKeyWidth) &&
        piano.KeysState() == old(piano.KeysState())
      ensures piano != null ==>
        piano.TierList(Tier1) == StoredList(list1) && piano.TierList(Tier2) == StoredList(list2) &&
        piano.TierList(Tier3) == StoredList(list3)
      ensures piano != null ==> forall i, t :: 0 <= i < |Keys()| ==> Label(Keys()[i], t) == FreshLabel(piano.TierList(t), i)
    {
      if piano != null {
        Relabel(piano, list1, list2, list3);
      }
    }
  }
}
