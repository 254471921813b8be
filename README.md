# An 88-key on-screen piano, modelled in Dafny

This project models the core of an Android piano keyboard library, in three parts.

- **The key** (`PianoKey.java`): a key's identity fields, its pressed flag and owning finger, and its three highlight labels. It also covers the hit test `contains` and the sort of a key list by MIDI number.
- **The keyboard builder** (`Piano.java`):
  - `InitPiano` builds 36 black and 52 white keys in octave groups and gives each its MIDI number in 21..108.
  - It gives each key its drawable bounds and its hit rectangles, and sorts all keys by MIDI number.
  - `setHighlightedKeys` and `refreshHighlightedKeys` write three tiers of labels into the key at index `midi - 21`.
- **The view** (`PianoView.java`):
  - The multi-touch state machine: `onTouchEvent` with `HandleDown`, `HandleMove`, `HandlePointerUp` and `HandleUp`. It keeps the pressed-key list, each key's pressed flag and finger, and the listener callbacks in step.
  - The label choice `GetTopmostHighlightedKeyNoteName`.
  - The width clamp `SetWhiteKeyWidth`.
  - The clear-then-set `SetHighlightedKeys`.

The files:

| file | contents |
|---|---|
| `options.dfy` | `Option`, for Java references that may be null |
| `rects.dfy` | `android.graphics.Rect` and its half-open `contains` |
| `java_math.dfy` | Java's truncating `/`, `Math.round` and the `(int)` cast, written over integers and reals |
| `piano_key.dfy` | `class PianoKey`: its setters, `Contains`, the comparator and the sort |
| `highlight.dfy` | the label tiers as functions of the stored lists: last entry wins, no clear for a non-empty list, clear then refresh |
| `layout.dfy` | key identities, slots, bounds, hit rectangles, MIDI numbers and letter names |
| `midi_order.dfy` | why index `midi - 21` of the sorted list finds the key with that MIDI number |
| `partition.dfy` | the hit areas cover the board; they partition it when the black width is even and overlap by one column when it is odd |
| `piano.dfy` | `class Piano`: `InitPiano`'s loop nests, the rebuild, the label refresh and the setters |
| `piano_view.dfy` | `class PianoView`: the touch state machine, the label choice, the width clamp and the view's `SetHighlightedKeys` |

Touch events are lists of `(pointerId, x, y)` integer triples, with the scroll offset already added. The listener is modelled as a sequence of `Press`/`Release` callbacks that the view appends to.

The view invariant `Valid` holds across every operation. It says three things:
- each listed key is listed once and is pressed;
- every pressed key of the keyboard is listed;
- the number of presses reported minus the number of releases equals the list's length.

`Fingers` says that each finger owns at most one listed key. It is proved to hold under these conditions:
- the keyboard was built with an even black width;
- every listed key belongs to the current keyboard;
- a Down pointer owns no key yet;
- the pointers of one event have distinct ids.

With an odd black width the lemma `Pianos.Piano.KeyAreasOverlapWhenOdd` exhibits the shared column. In that column the second pass of a Move can press a second key for a finger that already holds the black key.

## Behaviour as written

The model follows the code, including these details:
- The black key height is truncated, `(int) (H * ratio)`, not rounded (`Piano.java:59`).
- With key presses disabled, every action returns false and changes nothing, including Up and Cancel (`PianoView.java:568-570`). Keys pressed before that stay pressed. If presses are enabled again before the next gesture, its ACTION_DOWN can reuse a pointer id that still owns a listed key, and that finger then owns two keys (`PianoViews.PianoView.DownForOwnerBreaksFingers`).
- `refreshHighlightedKeys` with a non-empty tier list writes only the keys its entries name and leaves every other key's label of that tier as it was (`Piano.java:471-479`). The view gets a clean slate by first calling `setHighlightedKeys(null, null, null)` (`PianoView.java:896`).
- `HandleUp` unpresses and unlists every key but does not reset their finger ids (`PianoView.java:732-747`).
- `HandleDown` skips pressed keys and keeps scanning (`PianoView.java:618`, `PianoView.java:631`). With an even black width the key areas are disjoint (`Pianos.Piano.KeyAreasDisjoint`), so a second finger on a pressed key presses nothing. With an odd black width, the one column that a black key shares with the white key to its right is the exception: a second finger there presses that white key (`Pianos.Piano.KeyAreasOverlapWhenOdd`).
- `SafeScrollTo` clamps a request to `[0, full - visible]` by testing `< 0` first (`PianoView.java:817-830`). When the keyboard is narrower than the view, `full - visible` is negative, so any request that is not negative scrolls to that negative offset. A repeated `SafeScrollBy(0)` then alternates between 0 and that offset (`PianoViews.NarrowScrollAlternates`).
- A rebuild (`setWhiteKeyWidth`, `setLayoutDimension`) replaces the key objects and does not clear the view's pressed list. `Valid` tolerates listed keys from an earlier build. `Fingers` needs them to be on the current keyboard.
- With an odd black width, black key `j` spans `[jW - bw/2, jW - bw/2 + bw)`. This reaches one column into the top rectangle of the white key to its right, which starts at `jW + bw/2`.

## Model

Source paths are relative to the repository root.

| member | source | states |
|---|---|---|
| JavaMath.Quot | libpianoview/src/main/java/app/pg/libpianoview/entity/Piano.java:312 | Java's `bw / 2`: the remainder lies in `[0, b)` for a non-negative dividend and in `(-b, 0]` for a negative one, so the quotient truncates toward zero |
| JavaMath.Round | libpianoview/src/main/java/app/pg/libpianoview/entity/Piano.java:420 | `Math.round` gives the integer `q` with `q - 0.5 <= r < q + 0.5`: the nearest integer, with halves rounded up |
| JavaMath.TruncToInt | libpianoview/src/main/java/app/pg/libpianoview/entity/Piano.java:59 | the `(int)` cast of a float truncates toward zero, for either sign |
| JavaMath.QuotOfNonNegative | libpianoview/src/main/java/app/pg/libpianoview/entity/Piano.java:312 | on a non-negative dividend, Java's quotient agrees with Euclidean division |
| PianoKeys.PianoKey.constructor | libpianoview/src/main/java/app/pg/libpianoview/entity/PianoKey.java:24-28 | a new key has finger id -1, MIDI number -1 and three empty labels; it is not pressed and has no hit area (Java's `null` area is modelled as the empty sequence) |
| PianoKeys.PianoKey.SetType | libpianoview/src/main/java/app/pg/libpianoview/entity/PianoKey.java:34-36 | sets the key type and changes no other field |
| PianoKeys.PianoKey.SetVoice | libpianoview/src/main/java/app/pg/libpianoview/entity/PianoKey.java:42-44 | sets the voice and changes no other field |
| PianoKeys.PianoKey.SetGroup | libpianoview/src/main/java/app/pg/libpianoview/entity/PianoKey.java:50-52 | sets the octave group and changes no other field |
| PianoKeys.PianoKey.SetPositionOfGroup | libpianoview/src/main/java/app/pg/libpianoview/entity/PianoKey.java:58-60 | sets the position in the group and changes no other field |
| PianoKeys.PianoKey.SetKeyDrawableBounds | libpianoview/src/main/java/app/pg/libpianoview/entity/Piano.java:361-365 | sets the drawable bounds, modelled as a `Rect` field, and changes no other field |
| PianoKeys.PianoKey.SetPressed | libpianoview/src/main/java/app/pg/libpianoview/entity/PianoKey.java:82-84 | sets the pressed flag and changes no other field |
| PianoKeys.PianoKey.SetAreaOfKey | libpianoview/src/main/java/app/pg/libpianoview/entity/PianoKey.java:90-92 | sets the hit area and changes no other field |
| PianoKeys.PianoKey.SetLetterName | libpianoview/src/main/java/app/pg/libpianoview/entity/PianoKey.java:98-100 | sets the letter name and changes no other field |
| PianoKeys.PianoKey.SetMidiNoteNumber | libpianoview/src/main/java/app/pg/libpianoview/entity/PianoKey.java:127-129 | sets the MIDI number and changes no other field |
| PianoKeys.PianoKey.Contains | libpianoview/src/main/java/app/pg/libpianoview/entity/PianoKey.java:102-113 | true exactly when some non-null rectangle of the area holds the point under half-open `Rect` semantics; changes nothing |
| PianoKeys.PianoKey.ResetFingerID | libpianoview/src/main/java/app/pg/libpianoview/entity/PianoKey.java:115-117 | the finger id becomes -1; nothing else changes |
| PianoKeys.PianoKey.SetFingerID | libpianoview/src/main/java/app/pg/libpianoview/entity/PianoKey.java:119-121 | the finger id becomes the given one; nothing else changes |
| PianoKeys.PianoKey.SetHighlightedNoteName1 | libpianoview/src/main/java/app/pg/libpianoview/entity/PianoKey.java:149-151 | sets the tier-1 label; the other two labels and every other field are unchanged |
| PianoKeys.PianoKey.SetHighlightedNoteName2 | libpianoview/src/main/java/app/pg/libpianoview/entity/PianoKey.java:157-159 | sets the tier-2 label; nothing else changes |
| PianoKeys.PianoKey.SetHighlightedNoteName3 | libpianoview/src/main/java/app/pg/libpianoview/entity/PianoKey.java:165-167 | sets the tier-3 label; nothing else changes |
| PianoKeys.CompareByMidi | libpianoview/src/main/java/app/pg/libpianoview/entity/PianoKey.java:137-141 | the comparator is 0 iff the numbers are equal, -1 iff the first is smaller, and 1 iff it is larger |
| PianoKeys.CompareByMidiIsTotalPreorder | libpianoview/src/main/java/app/pg/libpianoview/entity/PianoKey.java:136-142 | the comparator meets `java.util.Comparator`'s contract: sign-antisymmetric, transitive, consistent on equal elements, and total |
| PianoKeys.InsertStep | libpianoview/src/main/java/app/pg/libpianoview/entity/PianoKey.java:135-143 | inserting a key at a point that keeps the order extends a sorted rearrangement of the keys seen by that key, in keys and in MIDI numbers |
| PianoKeys.SortListAscendingByMidiId | libpianoview/src/main/java/app/pg/libpianoview/entity/PianoKey.java:135-143 | the result is a permutation of the input, as a multiset of keys and of MIDI numbers, and is non-decreasing by MIDI number |
| PianoKeys.InsertByMidi | libpianoview/src/main/java/app/pg/libpianoview/entity/PianoKey.java:136-142 | one insertion keeps the sorted-rearrangement invariant |
| PianoKeys.InsertionPoint | libpianoview/src/main/java/app/pg/libpianoview/entity/PianoKey.java:137-141 | the key goes after every key whose number is not larger and before every larger one, which keeps equal keys in input order |
| Highlight.LastNameFor | libpianoview/src/main/java/app/pg/libpianoview/entity/Piano.java:472-479 | an entry targets index i iff a name is found; the name is that of a targeting entry with no later entry for i |
| Highlight.StoredList | libpianoview/src/main/java/app/pg/libpianoview/entity/Piano.java:440-454 | a null argument leaves the tier's list empty; otherwise the list is the argument |
| Highlight.LastEntryWins | libpianoview/src/main/java/app/pg/libpianoview/entity/Piano.java:472-479 | with a non-empty list, an entry that no later entry overrides sets the label of index `midi - 21` |
| Highlight.UntargetedLabelKept | libpianoview/src/main/java/app/pg/libpianoview/entity/Piano.java:471-479 | a non-empty list leaves the label of every index no entry names as it was; it does not clear |
| Highlight.ClearThenRefresh | libpianoview/src/main/java/app/pg/libpianoview/view/PianoView.java:896-901 | the view's two calls, null lists and then the real ones, leave each key the text of the last entry for it, or "" |
| Highlight.RefreshIdempotent | libpianoview/src/main/java/app/pg/libpianoview/entity/Piano.java:461-520 | refreshing a second time with the same lists changes no label |
| Highlight.RefreshFromBlank | libpianoview/src/main/java/app/pg/libpianoview/entity/Piano.java:263-265 | a refresh of a key whose label is blank leaves what a clear and a refresh leave |
| Highlight.WrittenLabelStep | libpianoview/src/main/java/app/pg/libpianoview/entity/Piano.java:472-478 | one more entry either writes index `midi - 21` or leaves the label as the shorter list left it |
| Highlight.SetLabel | libpianoview/src/main/java/app/pg/libpianoview/entity/PianoKey.java:145-167 | setting one tier's label leaves the other two tiers' labels unchanged |
| Layout.BlackKeyWidthFormula | libpianoview/src/main/java/app/pg/libpianoview/entity/Piano.java:420 | for W >= 0, `round(0.75 W)` equals `(3W + 2) / 4` and lies in `[0, W]` |
| Layout.BlackKeyHeightAtDefaultRatio | libpianoview/src/main/java/app/pg/libpianoview/entity/Piano.java:59 | with the view's ratio 0.6, the black key height is `3H / 5` rounded down and lies in `[0, H]` |
| Layout.BlackKeyHeightBounds | libpianoview/src/main/java/app/pg/libpianoview/entity/Piano.java:59 | for a ratio in `[0, 1]`, the truncated black key height lies in `[0, H]` |
| Layout.BuildDimsSane | libpianoview/src/main/java/app/pg/libpianoview/entity/Piano.java:58-59 | a build with positive W and H and a ratio in `[0, 1]` has `0 <= bw <= W` and `0 <= bh <= H` |
| Layout.WhiteSlotRoundTrip | libpianoview/src/main/java/app/pg/libpianoview/entity/Piano.java:359 | `7g - 5 + offset + p` maps the 52 white keys one to one onto slots 0..51 |
| Layout.BlackBoundaryRoundTrip | libpianoview/src/main/java/app/pg/libpianoview/entity/Piano.java:382-383 | `7g + offset - 4 + p + [p >= 2]` maps the 36 black keys one to one onto the boundaries `BlackAt` names |
| Layout.WhiteKeysAbut | libpianoview/src/main/java/app/pg/libpianoview/entity/Piano.java:352-366 | `WhiteKeyBounds`: each white key's right edge is the next white key's left edge, so there is no gap and no overlap |
| Layout.WhiteKeyArea | libpianoview/src/main/java/app/pg/libpianoview/entity/Piano.java:299-348 | `getWhitePianoKeyArea` gives 3 rectangles for CENTER and 2 for LEFT and RIGHT |
| Layout.WhitePositionMatchesBlackKeys | libpianoview/src/main/java/app/pg/libpianoview/entity/Piano.java:175-254 | `WhitePosition`: the LEFT/CENTER/RIGHT tag of each white key says exactly on which of its boundaries a black key sits; C8 has a black key on neither |
| Layout.WhiteKeyAreaInsideBounds | libpianoview/src/main/java/app/pg/libpianoview/entity/Piano.java:299-348 | given `0 <= bw <= W` and `0 <= bh <= H`, each hit rectangle of a white key lies inside its drawable bounds and no two share a point |
| Layout.BlackKeyWidth | libpianoview/src/main/java/app/pg/libpianoview/entity/Piano.java:420 | the black key width is the integer nearest to 0.75 W, with halves rounded up as `Math.round` does |
| Layout.BlackKeyHeight | libpianoview/src/main/java/app/pg/libpianoview/entity/Piano.java:59 | the black key height is H times the ratio truncated toward zero, as the `(int)` cast does |
| Layout.BlackKeyBounds | libpianoview/src/main/java/app/pg/libpianoview/entity/Piano.java:370-390 | `setBlackKeyDrawableBounds` gives a rectangle bw wide and bh high from the top. It is centred on the key's boundary, and one pixel right of centre when bw is odd |
| Partition.KeyBoundsOnBoard | libpianoview/src/main/java/app/pg/libpianoview/entity/Piano.java:352-390 | with sane dimensions, every key's drawable (`setWhiteKeyDrawableBounds`, `setBlackKeyDrawableBounds`) lies on the board: `0 <= left <= right <= 52 W`, top 0, bottom at most H |
| Layout.WhiteTablesAgree | libpianoview/src/main/java/app/pg/libpianoview/entity/Piano.java:175-254 | in the white voice, MIDI and letter tables, each key's MIDI number has its voice's pitch class. Its name is the voice's letter followed by the octave `MIDI / 12 - 1` |
| Layout.BlackTablesAgree | libpianoview/src/main/java/app/pg/libpianoview/entity/Piano.java:95-134 | in the black voice, MIDI and letter tables, each key is a semitone above its voice's pitch class. Its name starts with that voice's letter |
| MidiOrder.BuildRankRange | libpianoview/src/main/java/app/pg/libpianoview/entity/Piano.java:65-258 | the creation order puts the 88 keys at positions 0..87, the 36 black ones first |
| MidiOrder.RankRoundTrip | libpianoview/src/main/java/app/pg/libpianoview/entity/Piano.java:65-258 | creation positions and key identities correspond one to one |
| MidiOrder.RankInGroup | libpianoview/src/main/java/app/pg/libpianoview/entity/Piano.java:65-80 | a group's keys follow those of earlier groups; group sizes are [1,5,...,5] black and [2,7,...,7,1] white |
| MidiOrder.MidiOfKey | libpianoview/src/main/java/app/pg/libpianoview/entity/Piano.java:95-253 | every key gets a MIDI number in 21..108, and that number determines the key |
| MidiOrder.KeyOfMidi | libpianoview/src/main/java/app/pg/libpianoview/entity/Piano.java:95-253 | every number in 21..108 is the MIDI number of some key |
| MidiOrder.MidiInjective | libpianoview/src/main/java/app/pg/libpianoview/entity/Piano.java:95-253 | different keys get different MIDI numbers |
| MidiOrder.SortedDistinctIsRange | libpianoview/src/main/java/app/pg/libpianoview/entity/Piano.java:473 | a sorted rearrangement of 88 distinct numbers in 21..108 holds `21 + i` at index i |
| MidiOrder.SortedKeysIndexedByMidi | libpianoview/src/main/java/app/pg/libpianoview/entity/Piano.java:261 | a key list sorted by MIDI number whose numbers are those of a build has number `21 + i` at index i |
| Partition.BlackHolds | libpianoview/src/main/java/app/pg/libpianoview/entity/Piano.java:370-390 | a black key's hit area is the strip of width bw centred, as Java's `bw / 2` places it, on its boundary and bh high |
| Partition.WhiteHolds | libpianoview/src/main/java/app/pg/libpianoview/entity/Piano.java:299-348 | a white key's hit area is its slot less the corners of height bh and width `bw / 2` that the black keys on its boundaries cover |
| Partition.OwnerHolds | libpianoview/src/main/java/app/pg/libpianoview/entity/Piano.java:299-390 | every point of the board lies in the area of the key that owns it, black keys taking priority as `HandleDown` scans them |
| Partition.BoardCovered | libpianoview/src/main/java/app/pg/libpianoview/entity/Piano.java:299-390 | the hit areas cover `[0, 52W) x [0, H)` |
| Partition.HitIff | libpianoview/src/main/java/app/pg/libpianoview/entity/Piano.java:299-390 | a key's area holds a point iff the point satisfies the key's closed-form geometry |
| Partition.HoldsOnlyOnBoard | libpianoview/src/main/java/app/pg/libpianoview/entity/Piano.java:299-390 | no hit area reaches outside the board |
| Partition.OnlyOwnerHolds | libpianoview/src/main/java/app/pg/libpianoview/entity/Piano.java:299-390 | with an even bw, a key holds a point only if it is that point's owner |
| Partition.AreasDisjointWhenEven | libpianoview/src/main/java/app/pg/libpianoview/entity/Piano.java:299-390 | with an even bw, two keys whose areas share a point are the same key |
| Partition.OddWidthOverlap | libpianoview/src/main/java/app/pg/libpianoview/entity/Piano.java:382-389 | with an odd bw, the black key on boundary j and the white key in slot j both hold `(jW + bw/2, 0)` |
| Pianos.NewKey | libpianoview/src/main/java/app/pg/libpianoview/entity/Piano.java:78-92 | a new key carries everything InitPiano writes for its identity: type, group, position, bounds, area, voice, letter name and MIDI number; it is unpressed, has no finger and no labels |
| Pianos.SetPlace | libpianoview/src/main/java/app/pg/libpianoview/entity/Piano.java:83-87 | the key gets its type, group and position and is not pressed |
| Pianos.SetLook | libpianoview/src/main/java/app/pg/libpianoview/entity/Piano.java:88-98 | the key gets its bounds, area, voice, letter name and MIDI number |
| Pianos.AppendKey | libpianoview/src/main/java/app/pg/libpianoview/entity/Piano.java:79-80 | the key created next in creation order extends the run of built keys |
| Pianos.NewBlackGroup | libpianoview/src/main/java/app/pg/libpianoview/entity/Piano.java:78-134 | one black group: BlackGroupSize(g) new keys (group 0 breaks after A#0), each built for its identity and appended in order |
| Pianos.BuildBlackKeys | libpianoview/src/main/java/app/pg/libpianoview/entity/Piano.java:62-137 | 8 black groups of 36 new keys; each group array is its slice of the creation order |
| Pianos.NewWhiteGroup | libpianoview/src/main/java/app/pg/libpianoview/entity/Piano.java:160-255 | one white group: WhiteGroupSize(g) new keys (group 8 breaks after C8), each counted into the white-key count |
| Pianos.BuildWhiteKeys | libpianoview/src/main/java/app/pg/libpianoview/entity/Piano.java:140-258 | 9 white groups of 52 new keys; the white-key count is 52 |
| Pianos.BuiltMidis | libpianoview/src/main/java/app/pg/libpianoview/entity/Piano.java:95-253 | the keys of a build carry 88 distinct MIDI numbers, all in 21..108 |
| Pianos.SortedBuild | libpianoview/src/main/java/app/pg/libpianoview/entity/Piano.java:261 | after the sort, the key created r-th sits at index `midi - 21` |
| Pianos.SortedBuildMidis | libpianoview/src/main/java/app/pg/libpianoview/entity/Piano.java:261 | after the sort, index i holds MIDI number `21 + i` |
| Pianos.SortedLanding | libpianoview/src/main/java/app/pg/libpianoview/entity/Piano.java:260-261 | the sort of a build's keys yields the indexing both lemmas above describe |
| Pianos.BuildSortedMatches | libpianoview/src/main/java/app/pg/libpianoview/entity/Piano.java:260-261 | index i of the sorted list holds the key built for MIDI number `21 + i`, untouched |
| Pianos.BuildGroupsIndexed | libpianoview/src/main/java/app/pg/libpianoview/entity/Piano.java:257-261 | each key of the group arrays is the key at index `midi - 21` of the sorted list |
| Pianos.BuildIndexed | libpianoview/src/main/java/app/pg/libpianoview/entity/Piano.java:62-261 | a build's groups and sorted list satisfy `Indexed`, and no key is pressed, owned or labelled |
| Pianos.BuildGroups | libpianoview/src/main/java/app/pg/libpianoview/entity/Piano.java:62-258 | the two loop nests hand over the black groups, the white groups and the count 52 |
| Pianos.BuildKeys | libpianoview/src/main/java/app/pg/libpianoview/entity/Piano.java:62-261 | the 88 new keys are indexed by `midi - 21`, grouped as InitPiano groups them and all untouched |
| Pianos.Piano.constructor | libpianoview/src/main/java/app/pg/libpianoview/entity/Piano.java:39-53 | stores the layout and ratio and sets the width, which builds only when the layout size is positive. Any keys it builds are new objects, blank, and it keeps no keys otherwise |
| Pianos.Piano.InitPiano | libpianoview/src/main/java/app/pg/libpianoview/entity/Piano.java:57-267 | with a non-positive size it changes nothing; otherwise the keys are new and built for the current dimensions, unpressed, and labelled as a clear and a refresh leave them |
| Pianos.Piano.Rebuild | libpianoview/src/main/java/app/pg/libpianoview/entity/Piano.java:59-261 | the build branch: the black height, then new keys for the current dimensions, all untouched |
| Pianos.Piano.RebuildAndRefresh | libpianoview/src/main/java/app/pg/libpianoview/entity/Piano.java:58-266 | the build branch with its refresh: the invariant holds and every key is new, unpressed, without a finger and labelled as the stored lists label blank keys |
| Pianos.Piano.Install | libpianoview/src/main/java/app/pg/libpianoview/entity/Piano.java:136-141 | the new group arrays, sorted list and white-key count become the keyboard's, and the invariant holds |
| Pianos.Piano.BlankAfterRefresh | libpianoview/src/main/java/app/pg/libpianoview/entity/Piano.java:263-265 | refreshing new keys re-applies the stored labels: each key is unpressed, has no finger and shows what a clear and a refresh leave |
| Pianos.Piano.RefreshTier | libpianoview/src/main/java/app/pg/libpianoview/entity/Piano.java:464-481 | each key's label of the tier becomes RefreshedLabel of its index; the other tiers are unchanged |
| Pianos.Piano.RefreshHighlightedKeys | libpianoview/src/main/java/app/pg/libpianoview/entity/Piano.java:461-520 | every label of every tier becomes RefreshedLabel: "" for an empty list, otherwise the last entry's text or the old label |
| Pianos.Piano.SortedKeysDistinct | libpianoview/src/main/java/app/pg/libpianoview/entity/Piano.java:24 | the sorted list holds no key object twice |
| Pianos.Piano.KeyOfBuilt | libpianoview/src/main/java/app/pg/libpianoview/entity/Piano.java:473-476 | the key of any identity sits at index `midi - 21` and carries what InitPiano writes for it |
| Pianos.Piano.GroupKeysAreKeys | libpianoview/src/main/java/app/pg/libpianoview/entity/Piano.java:78-80 | every key of the group arrays is in the sorted list |
| Pianos.Piano.SortedKeyOf | libpianoview/src/main/java/app/pg/libpianoview/entity/Piano.java:473-476 | index i holds MIDI number `21 + i` and the key built for it |
| Pianos.Piano.KeysOneToOne | libpianoview/src/main/java/app/pg/libpianoview/entity/Piano.java:78-79 | different identities name different key objects |
| Pianos.Piano.KeyAreasDisjoint | libpianoview/src/main/java/app/pg/libpianoview/entity/Piano.java:299-390 | with an even black width no point lies in two keys' hit areas |
| Pianos.Piano.KeyAreasOverlapWhenOdd | libpianoview/src/main/java/app/pg/libpianoview/entity/Piano.java:299-390 | with an odd black width the black key on boundary j and a different key, the white key in slot j, both hold `(jW + bw/2, 0)` |
| Pianos.Piano.KeysCoverBoard | libpianoview/src/main/java/app/pg/libpianoview/entity/Piano.java:299-390 | a point lies in some key's hit area iff it lies on the board `[0, 52W) x [0, H)` |
| Pianos.Piano.PianoWidth | libpianoview/src/main/java/app/pg/libpianoview/entity/Piano.java:406-408 | `GetPianoWith` is 0 before any build and 52 W after one, which is C8's right edge |
| Pianos.Piano.SetWhiteKeyWidth | libpianoview/src/main/java/app/pg/libpianoview/entity/Piano.java:416-423 | stores W and `round(0.75 W)`; rebuilds for a positive layout size, and otherwise leaves the keys, count and black height as they were |
| Pianos.Piano.SetLayoutDimension | libpianoview/src/main/java/app/pg/libpianoview/entity/Piano.java:427-432 | stores the size; rebuilds when it is positive, and otherwise leaves the keys as they were |
| Pianos.Piano.SetHighlightedKeys | libpianoview/src/main/java/app/pg/libpianoview/entity/Piano.java:436-457 | stores the three lists, null as empty, and refreshes; on blank keys each label becomes the last entry's text or "" |
| Pianos.Piano.StoreLists | libpianoview/src/main/java/app/pg/libpianoview/entity/Piano.java:440-454 | each tier's list becomes its argument, or empty for null |
| Pianos.ClearTier | libpianoview/src/main/java/app/pg/libpianoview/entity/Piano.java:465-469 | every key's label of the tier becomes ""; the other tiers are unchanged |
| Pianos.WriteTier | libpianoview/src/main/java/app/pg/libpianoview/entity/Piano.java:471-479 | each key's label of the tier becomes the text of the last entry naming its index, or stays as it was |
| Pianos.WriteEntry | libpianoview/src/main/java/app/pg/libpianoview/entity/Piano.java:472-478 | the key at index `midi - 21`, if in range, gets the entry's text; no other label changes |
| PianoViews.ReleaseAll | libpianoview/src/main/java/app/pg/libpianoview/view/PianoView.java:734-743 | one release callback per listed key, in list order |
| PianoViews.ReleaseAllCounts | libpianoview/src/main/java/app/pg/libpianoview/view/PianoView.java:733-745 | HandleUp's callbacks contain no press and one release per listed key |
| PianoViews.FirstFreeIsFirst | libpianoview/src/main/java/app/pg/libpianoview/view/PianoView.java:615-639 | the key found is free, meaning unpressed and holding the point, and no earlier key is free; none is found iff no key is free |
| PianoViews.FirstFreeAppend | libpianoview/src/main/java/app/pg/libpianoview/view/PianoView.java:615-639 | a white key is considered only when no black key is free |
| PianoViews.FindFree | libpianoview/src/main/java/app/pg/libpianoview/view/PianoView.java:615-639 | the nested loops return the first free key in group order |
| PianoViews.FirstOwned | libpianoview/src/main/java/app/pg/libpianoview/view/PianoView.java:711-712 | the index of the first listed key with the pointer's finger id; none iff no listed key has it |
| PianoViews.FirstStrayed | libpianoview/src/main/java/app/pg/libpianoview/view/PianoView.java:687-689 | the index of the first listed key the pointer owns but no longer touches; none iff there is none |
| PianoViews.RemoveAt | libpianoview/src/main/java/app/pg/libpianoview/view/PianoView.java:699 | `remove(key)` on a list that holds the key once drops exactly that position and keeps the order |
| PianoViews.ClampedWidth | libpianoview/src/main/java/app/pg/libpianoview/view/PianoView.java:866-876 | an unchanged request keeps the width; a larger one is capped at the maximum; a smaller one is floored at the minimum |
| PianoViews.ClampHonoursRequest | libpianoview/src/main/java/app/pg/libpianoview/view/PianoView.java:866-876 | a request within `[minPx, maxPx]` is applied as asked |
| PianoViews.ClampIdempotent | libpianoview/src/main/java/app/pg/libpianoview/view/PianoView.java:859-886 | repeating a request changes nothing more |
| PianoViews.GrowRequestCanShrink | libpianoview/src/main/java/app/pg/libpianoview/view/PianoView.java:870-872 | a request to grow keys that are already wider than the cap (an eighth of the layout width) lands on the cap, so the keys shrink |
| PianoViews.ShrinkRequestCanGrow | libpianoview/src/main/java/app/pg/libpianoview/view/PianoView.java:874-876 | a request to shrink keys that are already narrower than the minimum lands on the minimum, so the keys grow |
| PianoViews.ScrollTarget | libpianoview/src/main/java/app/pg/libpianoview/view/PianoView.java:817-830 | the position `SafeScrollTo` scrolls to. With a keyboard at least as wide as the view it lies in `[0, full - visible]` and is the position there nearest to the request. Otherwise a negative request gives 0 and any other gives `full - visible` |
| PianoViews.ScrollHonoursRequest | libpianoview/src/main/java/app/pg/libpianoview/view/PianoView.java:817-830 | a request within `[0, full - visible]` is scrolled to as asked |
| PianoViews.ScrollIdempotent | libpianoview/src/main/java/app/pg/libpianoview/view/PianoView.java:817-830 | with a keyboard at least as wide as the view, scrolling again to the position reached changes nothing |
| PianoViews.NarrowScrollAlternates | libpianoview/src/main/java/app/pg/libpianoview/view/PianoView.java:817-830 | with a keyboard narrower than the view, scrolling to 0 goes to `full - visible` and scrolling to that goes back to 0 |
| PianoViews.Relabel | libpianoview/src/main/java/app/pg/libpianoview/view/PianoView.java:894-901 | after clear-then-set, each key's label of each tier is the text of the last entry for its index, or "" |
| PianoViews.ClearLabels | libpianoview/src/main/java/app/pg/libpianoview/view/PianoView.java:896 | `setHighlightedKeys(null, null, null)` blanks every label of every key |
| PianoViews.SetFromBlank | libpianoview/src/main/java/app/pg/libpianoview/view/PianoView.java:898-901 | setting the three lists on a keyboard whose labels are all blank stores them (null as empty) and gives each key, in each tier, the text of the last entry for its index, or "" |
| PianoViews.PianoView.HeldKeyBlocksDown | libpianoview/src/main/java/app/pg/libpianoview/view/PianoView.java:615-639 | with an even black width, a pointer still on the key it owns finds no free key |
| PianoViews.PianoView.FingersAfterPress | libpianoview/src/main/java/app/pg/libpianoview/view/PianoView.java:645-660 | pressing for a pointer that owns no key keeps each finger to at most one key |
| PianoViews.PianoView.OneKeyAfterPress | libpianoview/src/main/java/app/pg/libpianoview/view/PianoView.java:651-658 | appending a key whose finger owns no listed key, with no other finger changed, keeps each finger to at most one listed key |
| PianoViews.PianoView.HeldAfterPress | libpianoview/src/main/java/app/pg/libpianoview/view/PianoView.java:645-660 | a press changes no other pointer's keys |
| PianoViews.PianoView.FingersWithoutPress | libpianoview/src/main/java/app/pg/libpianoview/view/PianoView.java:607-641 | a Down that presses nothing keeps every finger's ownership |
| PianoViews.PianoView.FingersAfterRelease | libpianoview/src/main/java/app/pg/libpianoview/view/PianoView.java:683-728 | dropping keys from the list keeps each finger to one key and keeps each owned key under its pointer |
| PianoViews.PianoView.FingersAfterReleasedFirst | libpianoview/src/main/java/app/pg/libpianoview/view/PianoView.java:710-728 | after a release the released key's finger owns no listed key |
| PianoViews.PianoView.FingersAfterMove | libpianoview/src/main/java/app/pg/libpianoview/view/PianoView.java:683-706 | after HandleMove every key the pointer still owns holds its position |
| PianoViews.PianoView.HeldAfterMove | libpianoview/src/main/java/app/pg/libpianoview/view/PianoView.java:581-583 | after HandleMove for pointer i, if each finger owned one key and the keys of pointers before i held them, that stays so and pointer i's keys hold it too |
| PianoViews.PianoView.FingersAfterPointerUp | libpianoview/src/main/java/app/pg/libpianoview/view/PianoView.java:710-728 | HandlePointerUp keeps each finger to one key |
| PianoViews.PianoView.ValidAfterPress | libpianoview/src/main/java/app/pg/libpianoview/view/PianoView.java:645-660 | pressing, listing and reporting an unpressed key of the keyboard keeps the invariant: listed once, listed iff pressed, presses minus releases equals the length |
| PianoViews.PianoView.ListingAfterPress | libpianoview/src/main/java/app/pg/libpianoview/view/PianoView.java:651-658 | pressing a key of the keyboard that was not pressed, appending it and reporting one press keeps the list in step with the pressed flags and the callbacks |
| PianoViews.PianoView.ValidAfterRelease | libpianoview/src/main/java/app/pg/libpianoview/view/PianoView.java:710-728 | unpressing, unlisting and reporting one listed key keeps the invariant |
| PianoViews.PianoView.ValidAfterReleaseAll | libpianoview/src/main/java/app/pg/libpianoview/view/PianoView.java:732-747 | releasing every listed key and clearing the list keeps the invariant and leaves no key of the keyboard pressed |
| PianoViews.PianoView.ScanKeysAreKeys | libpianoview/src/main/java/app/pg/libpianoview/view/PianoView.java:611-613 | every key HandleDown scans is a key of the sorted list |
| PianoViews.PianoView.constructor | libpianoview/src/main/java/app/pg/libpianoview/view/PianoView.java:49-75 | no keyboard yet and nothing pressed; key presses and tiers 1 and 3 enabled, tier 2 disabled; scroll offset 0 |
| PianoViews.PianoView.LayoutMeasured | libpianoview/src/main/java/app/pg/libpianoview/view/PianoView.java:124-131 | the view and its keyboard get the new layout size. A buildable keyboard is rebuilt blank from new key objects, and an unbuildable one keeps its keys |
| PianoViews.PianoView.EnsurePiano | libpianoview/src/main/java/app/pg/libpianoview/view/PianoView.java:139-144 | without a keyboard, a new one is made, with new key objects, for the layout size, the given white key width and the ratio 0.6. It is blank when buildable and empty otherwise. An existing keyboard is kept, and the pressed list and events stay |
| PianoViews.PianoView.PressKey | libpianoview/src/main/java/app/pg/libpianoview/view/PianoView.java:645-660 | presses the key for the pointer; if the pointer owned nothing, each finger still owns at most one key |
| PianoViews.PianoView.KeyDown | libpianoview/src/main/java/app/pg/libpianoview/view/PianoView.java:645-679 | one press is reported; the key is pressed, owned by the pointer and appended to the list; no other key changes |
| PianoViews.PianoView.MarkPressed | libpianoview/src/main/java/app/pg/libpianoview/view/PianoView.java:646-658 | the press callback is reported, the key is pressed and owned by the pointer, and it is appended to the list |
| PianoViews.PianoView.ReleaseFound | libpianoview/src/main/java/app/pg/libpianoview/view/PianoView.java:689-703 | releases the found index, or changes nothing when there is none |
| PianoViews.PianoView.ReleaseAt | libpianoview/src/main/java/app/pg/libpianoview/view/PianoView.java:713-722 | one release is reported; the key is unpressed, has finger id -1 and is off the list; the others keep their state |
| PianoViews.PianoView.HandlePointerUp | libpianoview/src/main/java/app/pg/libpianoview/view/PianoView.java:710-728 | releases exactly the first listed key the pointer owns, or nothing; at most one callback, none a press; fingers stay one-to-one |
| PianoViews.PianoView.ReleaseOwned | libpianoview/src/main/java/app/pg/libpianoview/view/PianoView.java:711-728 | the search finds FirstOwned and releases it |
| PianoViews.PianoView.HandleMove | libpianoview/src/main/java/app/pg/libpianoview/view/PianoView.java:683-706 | releases exactly the first listed key the pointer owns and has left, or nothing; at most one callback, none a press |
| PianoViews.PianoView.HandleDown | libpianoview/src/main/java/app/pg/libpianoview/view/PianoView.java:607-641 | presses exactly the first unpressed key holding the point, black keys before white, or nothing; at most one callback, none a release; others' keys stay held |
| PianoViews.PianoView.PressFound | libpianoview/src/main/java/app/pg/libpianoview/view/PianoView.java:618-635 | presses the found key; a pointer still on its own key finds none |
| PianoViews.PianoView.HandleUp | libpianoview/src/main/java/app/pg/libpianoview/view/PianoView.java:732-747 | one release per listed key in list order; the list is empty, no key is pressed, and finger ids are kept |
| PianoViews.PianoView.ReleaseListed | libpianoview/src/main/java/app/pg/libpianoview/view/PianoView.java:733-745 | the callbacks and list after HandleUp's loop and clear; no key's identity changes |
| PianoViews.PianoView.ReleaseEach | libpianoview/src/main/java/app/pg/libpianoview/view/PianoView.java:734-743 | the loop reports each key in order and unpresses it |
| PianoViews.PianoView.MoveStep | libpianoview/src/main/java/app/pg/libpianoview/view/PianoView.java:582 | one HandleMove: at most one release; that pointer's keys now hold it |
| PianoViews.PianoView.MoveEach | libpianoview/src/main/java/app/pg/libpianoview/view/PianoView.java:581-583 | the first pass makes at most one release per pointer and no press; afterwards every pointer's keys hold it |
| PianoViews.PianoView.DownEach | libpianoview/src/main/java/app/pg/libpianoview/view/PianoView.java:584-586 | the second pass makes at most one press per pointer and no release; with distinct ids each finger keeps at most one key |
| PianoViews.PianoView.DownStep | libpianoview/src/main/java/app/pg/libpianoview/view/PianoView.java:584-586 | one HandleDown of the second pass: at most one press and no release; with distinct ids, each finger still owns at most one key and the later pointers' keys still hold them |
| PianoViews.PianoView.HandleMoveEvent | libpianoview/src/main/java/app/pg/libpianoview/view/PianoView.java:580-587 | all releases of a move come before all its presses, at most one of each per pointer |
| PianoViews.PianoView.DownEvent | libpianoview/src/main/java/app/pg/libpianoview/view/PianoView.java:575-578 | a Down or PointerDown presses the first free key under the action pointer, or nothing; if that pointer owned no key, each finger still owns at most one |
| PianoViews.PianoView.OnTouchEvent | libpianoview/src/main/java/app/pg/libpianoview/view/PianoView.java:567-603 | when disabled, or for any other action, no change: the same events and pressed list, and every key's pressed flag and finger id kept; when disabled the result is false; otherwise each action has the effect stated above, and Up and Cancel keep every listed key's finger id; the result is false only for Up and Cancel; the invariant always holds |
| PianoViews.PianoView.TopmostLabel | libpianoview/src/main/java/app/pg/libpianoview/view/PianoView.java:464-478 | `GetTopmostHighlightedKeyNoteName`: the label is "" iff no enabled tier has one; otherwise it is an enabled tier's label with no higher enabled tier labelled |
| PianoViews.PianoView.SetKeyPressEnabled | libpianoview/src/main/java/app/pg/libpianoview/view/PianoView.java:775-777 | sets the flag and keeps the invariant |
| PianoViews.PianoView.DownForOwnerBreaksFingers | libpianoview/src/main/java/app/pg/libpianoview/view/PianoView.java:567-578 | when the action pointer of a Down already owns a listed key, pressing the first free key for it leaves one finger owning two listed keys, so the one-key-per-finger condition fails; an ACTION_UP ignored while key presses are disabled (lines 568-570) leaves the pointer owning its key, so the next gesture reaches this state |
| PianoViews.PianoView.FullPianoWidth | libpianoview/src/main/java/app/pg/libpianoview/view/PianoView.java:751-757 | `GetFullPianoWidth`: 0 without a keyboard or before a build; 52 W after one |
| PianoViews.PianoView.SafeScrollTo | libpianoview/src/main/java/app/pg/libpianoview/view/PianoView.java:817-830 | the scroll offset becomes `ScrollTarget(px, full - visible)`, in `[0, full - visible]` whenever the keyboard is at least as wide as the view; the invariant holds |
| PianoViews.PianoView.SafeScrollBy | libpianoview/src/main/java/app/pg/libpianoview/view/PianoView.java:834-839 | the scroll offset becomes `ScrollTarget` of the old offset plus the delta, with the same bounds |
| PianoViews.PianoView.SetWhiteKeyWidth | libpianoview/src/main/java/app/pg/libpianoview/view/PianoView.java:859-886 | with a keyboard the width becomes ClampedWidth. When that equals the current width the keyboard is unchanged. Otherwise a buildable keyboard is rebuilt blank from new key objects, and an unbuildable one keeps its keys. The layout size always stays. Only the width and build fields of the keyboard may change |
| PianoViews.PianoView.SetHighlightedKeys | libpianoview/src/main/java/app/pg/libpianoview/view/PianoView.java:890-905 | the stored lists become the arguments, and each key shows only what the new lists give it. The layout size, the key widths and the built keys stay. Only the three tier lists and the keys' labels may change |

## Left out

- Rendering is not modelled: `onDraw`, the highlight rectangles, text metrics, `Paint`, `Drawable.setState` and `invalidate`. These are drawing calls that change no state the model tracks.
- `onMeasure` (`PianoView.java:103-123`, `PianoView.java:133`) measures through framework calls, so only its end is modelled (`LayoutMeasured`). It receives the layout size, already less the padding, as parameters. `EnsurePiano` receives the default white key width already converted from dp to pixels.
- Floating point is not modelled. `0.75f` and the height ratio are exact reals, so `round(0.75 W)` is `(3W + 2) / 4` and float rounding error for very large W does not appear.
- Java's 32-bit `int` overflow is not modelled. Products such as `slot * W` are unbounded integers; they would wrap only for widths beyond about 40 million pixels.
- `dpToPx` is not modelled, because it depends on display metrics. The minimum width arrives as the parameter `minWidthPx`, and the default width is whatever the caller passes.
- MotionEvent coordinates are given as integers with `getScrollX` already added, so the float coordinates and their `(int)` casts are not modelled.
- `mPianoListener` is assumed to be registered: every callback is appended to `events`. With no listener the Java code drops the callbacks, and the key state changes the same way.
- `CopyOnWriteArrayList` is modelled as a sequence. Each loop that removes from it stops right after the removal, so the snapshot iteration changes nothing here. Concurrency is left out because everything runs on the UI thread.
- PianoKeys.SortListAscendingByMidiId: returns the sorted list instead of sorting the `ArrayList` in place, and uses an insertion sort in place of `Collections.sort`. The contract states permutation and order but not stability. For a build, whose MIDI numbers are distinct, the sorted list is unique anyway (`MidiOrder.SortedDistinctIsRange`).
- PianoViews.PianoView.OnTouchEvent: finger-to-key injectivity (`Fingers`) is stated only under these conditions: an even black width, listed keys on the current keyboard, a Down pointer that owns no key, and distinct pointer ids. With an odd width the areas overlap (`Pianos.Piano.KeyAreasOverlapWhenOdd`). A rebuild leaves stale keys in the list. Distinct pointer ids within one event come from the platform. The condition on a Down pointer is not guaranteed, and the view itself can break it: finger 0 presses a key, key presses are disabled, the ACTION_UP arrives and is ignored, presses are enabled again, and the next gesture's ACTION_DOWN with pointer id 0 presses a second key for finger 0 (`PianoViews.PianoView.DownForOwnerBreaksFingers`). `SetKeyPressEnabled` releases nothing.
- PianoViews.PianoView.HandleMoveEvent: states only that releases precede presses and that there is at most one of each per pointer. Which keys change is stated per pointer, by `HandleMove` and `HandleDown`.
- PianoViews.PianoView.MoveEach: states a bound on the callbacks and the ownership facts, not which keys are released.
- PianoViews.PianoView.DownEach: states a bound on the callbacks and the ownership facts, not which keys are pressed.
- PianoKeys.PianoKey.constructor: the hit area `areaOfKey` starts as `null` in Java (`PianoKey.java:22`) and is modelled as the empty sequence. `contains` on such a key would throw a `NullPointerException` in Java, while the model answers false. Only a key that `InitPiano` has not yet set up has no area.
- `voiceId`, the key's `Drawable` object, the enum `toString` and integer values, and the Gson annotations are not modelled: they are unused or serialisation-only.
- These view plumbing members are not modelled, since they only store or return a value that drawing alone uses or that the model reads directly:
  - `SetPianoOctaveColors`, which stores the colours only when it gets exactly 9 of them;
  - `SetShowNoteNamesEnabled`, `SetOctaveColoringEnabled`, `SetSelectedKeysHighlight1Enabled` and `SetSelectedKeysHighlight3Enabled`;
  - `GetVisiblePianoWidth`, which is the field `layoutWidth`, and `GetWhiteKeyWidth`;
  - `onSaveInstanceState` and `onRestoreInstanceState`;
  - `SetPianoListener`, `mIsInitFinish` and `onPianoInitFinish`.
  The tier flags that `GetTopmostHighlightedKeyNoteName` reads are fields of the view.
- The getters of `Piano` (`getWhitePianoKeys`, `getBlackPianoKeys`, `getWhiteKeyWidth`) are not modelled as members; the model reads the fields directly.
