/**
 * The keyboard's geometry and key identities as Piano.java computes them
 * (InitPiano, getWhitePianoKeyArea, setWhiteKeyDrawableBounds,
 * setBlackKeyDrawableBounds, setWhiteKeyWidth): pure integer formulas over the
 * white key width W, the black key width bw, the black key height bh and the
 * layout height H.
 *
 * White keys sit in "slots" 0..51 from left to right; slot s spans
 * [s*W, s*W + W). A black key is centred on a "boundary" j between white slots
 * j-1 and j, and boundaries 1..50 that carry a black key are those `BlackAt`
 * names.
 */
module Layout {
  import opened Options
  import opened Rects
  import opened JavaMath
  import opened PianoKeys

  /** BLACK_PIANO_KEY_GROUPS and WHITE_PIANO_KEY_GROUPS */
  const BlackGroups := 8
  const WhiteGroups := 9

  /** The length of the key array of each octave group. */
  function BlackGroupSize(g: int): nat {
    if g == 0 then 1 else 5
  }

  function WhiteGroupSize(g: int): nat {
    if g == 0 then 2 else if g == 8 then 1 else 7
  }

  /** The dimensions a build draws with. */
  datatype Dims = Dims(whiteWidth: int, blackWidth: int, blackHeight: int, height: int)

  /** Dimensions for which the hit areas are well formed. */
  predicate SaneDims(d: Dims) {
    d.whiteWidth > 0 && 0 <= d.blackWidth <= d.whiteWidth && 0 <= d.blackHeight <= d.height
  }

  /** Math.round(W * 0.75f): the integer nearest to three quarters of W, halves rounded up. */
  function BlackKeyWidth(w: int): (bw: int)
    ensures bw as real - 0.5 <= w as real * 0.75 < bw as real + 0.5
  {
    Round(w as real * 0.75)
  }

  /** (int) (H * ratio): truncated toward zero, not rounded */
  function BlackKeyHeight(h: int, ratio: real): (bh: int)
    ensures h as real * ratio >= 0.0 ==> bh as real <= h as real * ratio < bh as real + 1.0
    ensures h as real * ratio < 0.0 ==> bh as real - 1.0 < h as real * ratio <= bh as real
  {
    TruncToInt(h as real * ratio)
  }

  lemma BlackKeyWidthFormula(w: int)
    requires w >= 0
    ensures BlackKeyWidth(w) == (3 * w + 2) / 4
    ensures 0 <= BlackKeyWidth(w) <= w
  {
    var q := BlackKeyWidth(w);
    assert 4 * q - 2 <= 3 * w < 4 * q + 2;
  }

  /** With the view's ratio 0.6 the black height is 3H/5 rounded down. */
  lemma BlackKeyHeightAtDefaultRatio(h: int)
    requires h >= 0
    ensures BlackKeyHeight(h, 0.6) == 3 * h / 5
    ensures 0 <= BlackKeyHeight(h, 0.6) <= h
  {
    var q := BlackKeyHeight(h, 0.6);
    assert q as real <= h as real * 0.6 < q as real + 1.0;
    assert 5 * q <= 3 * h < 5 * q + 5;
  }

  lemma BlackKeyHeightBounds(h: int, ratio: real)
    requires h >= 0 && 0.0 <= ratio <= 1.0
    ensures 0 <= BlackKeyHeight(h, ratio) <= h
  {
    var hr := h as real;
    var r := hr * ratio;
    assert 0.0 <= r by {
      NonNegativeProduct(hr, ratio);
    }
    assert r <= hr by {
      NonNegativeProduct(hr, 1.0 - ratio);
      assert hr * (1.0 - ratio) == hr - r;
    }
    var q := BlackKeyHeight(h, ratio);
    assert q as real <= r < q as real + 1.0;
  }

  lemma NonNegativeProduct(a: real, b: real)
    requires 0.0 <= a && 0.0 <= b
    ensures 0.0 <= a * b
  {
  }

  /** The dimensions of a build with white width W, layout height H and height ratio. */
  function BuildDims(w: int, h: int, ratio: real): (d: Dims)
    ensures d.whiteWidth == w && d.height == h
  {
    Dims(w, BlackKeyWidth(w), BlackKeyHeight(h, ratio), h)
  }

  lemma BuildDimsSane(w: int, h: int, ratio: real)
    requires w > 0 && h > 0 && 0.0 <= ratio <= 1.0
    ensures SaneDims(BuildDims(w, h, ratio))
  {
    BlackKeyWidthFormula(w);
    BlackKeyHeightBounds(h, ratio);
  }

  /** `offset`/`whiteOffset`: group 0 holds only A0 and B0, so it is shifted by 5 */
  function GroupOffset(g: int): int {
    if g == 0 then 5 else 0
  }

  /** The slot of white key (g, p): 7g - 5 + offset + p */
  function WhiteSlot(g: int, p: int): int {
    7 * g - 5 + GroupOffset(g) + p
  }

  /** The boundary of black key (g, p): 7g + offset - 4 + p, plus one past the E-F gap */
  function BlackBoundary(g: int, p: int): int {
    7 * g + GroupOffset(g) - 4 + p + (if p == 2 || p == 3 || p == 4 then 1 else 0)
  }

  predicate ValidWhite(g: int, p: int) {
    0 <= g < WhiteGroups && 0 <= p < WhiteGroupSize(g)
  }

  predicate ValidBlack(g: int, p: int) {
    0 <= g < BlackGroups && 0 <= p < BlackGroupSize(g)
  }

  /** A black key sits on boundary j: A#0 on 1, then five per octave from 3. */
  predicate BlackAt(j: int) {
    j == 1 || (2 <= j <= 50 && ((j - 2) % 7) in {1, 2, 4, 5, 6})
  }

  /** The white key in slot s. */
  function WhiteIdAt(s: int): (gp: (int, int))
    requires 0 <= s < 52
  {
    if s < 2 then (0, s) else if s == 51 then (8, 0) else ((s - 2) / 7 + 1, (s - 2) % 7)
  }

  /** The black key on boundary j. */
  function BlackIdAt(j: int): (gp: (int, int))
    requires BlackAt(j)
  {
    if j == 1 then (0, 0)
    else
      var r := (j - 2) % 7;
      ((j - 2) / 7 + 1, if r <= 2 then r - 1 else r - 2)
  }

  /** White keys fill slots 0..51, one each. */
  lemma WhiteSlotRoundTrip(g: int, p: int, s: int)
    ensures ValidWhite(g, p) ==> 0 <= WhiteSlot(g, p) < 52 && WhiteIdAt(WhiteSlot(g, p)) == (g, p)
    ensures 0 <= s < 52 ==> ValidWhite(WhiteIdAt(s).0, WhiteIdAt(s).1) && WhiteSlot(WhiteIdAt(s).0, WhiteIdAt(s).1) == s
  {
  }

  lemma WhiteSlotRange(g: int, p: int)
    requires ValidWhite(g, p)
    ensures 0 <= WhiteSlot(g, p) < 52
  {
  }

  lemma BlackBoundaryRange(g: int, p: int)
    requires ValidBlack(g, p)
    ensures 1 <= BlackBoundary(g, p) <= 50
  {
  }

  /** Black keys sit exactly on the boundaries BlackAt names, one each. */
  lemma BlackBoundaryRoundTrip(g: int, p: int, j: int)
    ensures ValidBlack(g, p) ==> BlackAt(BlackBoundary(g, p)) && BlackIdAt(BlackBoundary(g, p)) == (g, p)
    ensures BlackAt(j) ==> ValidBlack(BlackIdAt(j).0, BlackIdAt(j).1) && BlackBoundary(BlackIdAt(j).0, BlackIdAt(j).1) == j
  {
  }

  /** setWhiteKeyDrawableBounds */
  function WhiteKeyBounds(g: int, p: int, d: Dims): Rect {
    var left := WhiteSlot(g, p) * d.whiteWidth;
    Rect(left, 0, left + d.whiteWidth, d.height)
  }

  /**
   * setBlackKeyDrawableBounds: a rectangle bw wide and bh high, centred on the
   * key's boundary, one pixel to the right of centre when bw is odd.
   */
  function BlackKeyBounds(g: int, p: int, d: Dims): (r: Rect)
    ensures r.top == 0 && r.bottom == d.blackHeight && r.right - r.left == d.blackWidth
    ensures d.blackWidth >= 0 ==> r.left + r.right == 2 * (BlackBoundary(g, p) * d.whiteWidth) + d.blackWidth % 2
  {
    var left := BlackBoundary(g, p) * d.whiteWidth - Quot(d.blackWidth, 2);
    Rect(left, 0, left + d.blackWidth, d.blackHeight)
  }

  /** Consecutive white keys abut: each one's right edge is the next one's left edge. */
  lemma WhiteKeysAbut(s: int, d: Dims)
    requires 0 <= s < 51
    ensures var (g, p) := WhiteIdAt(s); var (g', p') := WhiteIdAt(s + 1);
      WhiteKeyBounds(g, p, d).right == WhiteKeyBounds(g', p', d).left
  {
    var (g, p) := WhiteIdAt(s);
    var (g', p') := WhiteIdAt(s + 1);
    assert WhiteSlot(g, p) == s by {
      WhiteSlotRoundTrip(0, 0, s);
    }
    assert WhiteSlot(g', p') == s + 1 by {
      WhiteSlotRoundTrip(0, 0, s + 1);
    }
    AbutBySlot(g, p, g', p', d);
  }

  lemma AbutBySlot(g: int, p: int, g': int, p': int, d: Dims)
    requires WhiteSlot(g', p') == WhiteSlot(g, p) + 1
    ensures WhiteKeyBounds(g, p, d).right == WhiteKeyBounds(g', p', d).left
  {
    var s := WhiteSlot(g, p);
    assert s * d.whiteWidth + d.whiteWidth == (s + 1) * d.whiteWidth;
  }

  /** BlackKeyPosition: on which sides of a white key a black key overlaps it */
  datatype BlackKeyPosition = Left | Center | Right

  /** getWhitePianoKeyArea: the hit rectangles of white key (g, p) */
  function WhiteKeyArea(g: int, p: int, position: BlackKeyPosition, d: Dims): (area: Area)
    ensures |area| == (if position == Center then 3 else 2)
  {
    var l := WhiteSlot(g, p) * d.whiteWidth;
    var r := l + d.whiteWidth;
    var half := Quot(d.blackWidth, 2);
    match position
    case Left =>
      [Some(Rect(l, d.blackHeight, l + half, d.height)), Some(Rect(l + half, 0, r, d.height))]
    case Center =>
      [Some(Rect(l, d.blackHeight, l + half, d.height)), Some(Rect(l + half, 0, r - half, d.height)),
       Some(Rect(r - half, d.blackHeight, r, d.height))]
    case Right =>
      [Some(Rect(l, 0, r - half, d.height)), Some(Rect(r - half, d.blackHeight, r, d.height))]
  }

  /** The position InitPiano passes for white key (g, p) of groups 0..7. */
  function WhitePosition(g: int, p: int): BlackKeyPosition {
    if g == 0 then (if p == 0 then Right else Left)
    else if p == 0 || p == 3 then Right
    else if p == 2 || p == 6 then Left
    else Center
  }

  /**
   * The tag InitPiano passes says exactly where black keys sit: Left or Center
   * when a black key is on the white key's left boundary, Right or Center when
   * one is on its right boundary; C8 has neither.
   */
  lemma WhitePositionMatchesBlackKeys(g: int, p: int)
    requires ValidWhite(g, p)
    ensures var s := WhiteSlot(g, p);
      if g == 8 then !BlackAt(s) && !BlackAt(s + 1)
      else
        (WhitePosition(g, p) in {Left, Center} <==> BlackAt(s)) &&
        (WhitePosition(g, p) in {Right, Center} <==> BlackAt(s + 1))
  {
    if g == 0 {
    } else if g == 8 {
    } else {
      var s := WhiteSlot(g, p);
      SlotResidue(g, p);
      assert BlackAt(s) <==> p in {1, 2, 4, 5, 6};
      assert BlackAt(s + 1) <==> (p + 1) % 7 in {1, 2, 4, 5, 6};
    }
  }

  /** Inside a middle group, a white key's slot sits p places after a C. */
  lemma SlotResidue(g: int, p: int)
    requires 1 <= g <= 7 && 0 <= p < 7
    ensures (WhiteSlot(g, p) - 2) % 7 == p
    ensures (WhiteSlot(g, p) - 1) % 7 == (p + 1) % 7
  {
    assert WhiteSlot(g, p) - 2 == 7 * (g - 1) + p;
  }

  /** Each hit rectangle of a white key lies inside its drawable bounds, and no two share a point. */
  lemma WhiteKeyAreaInsideBounds(g: int, p: int, position: BlackKeyPosition, d: Dims, x: int, y: int)
    requires SaneDims(d)
    ensures var area := WhiteKeyArea(g, p, position, d);
      forall i :: 0 <= i < |area| && area[i].value.Contains(x, y) ==> WhiteKeyBounds(g, p, d).Contains(x, y)
    ensures var area := WhiteKeyArea(g, p, position, d);
      forall i, j :: 0 <= i < j < |area| ==> !(area[i].value.Contains(x, y) && area[j].value.Contains(x, y))
  {
    QuotOfNonNegative(d.blackWidth, 2);
  }

  function BlackVoice(g: int, p: int): Voice {
    if g == 0 then La else [Do, Re, Fa, So, La][p % 5]
  }

  function BlackMidi(g: int, p: int): int {
    if g == 0 then 22 else [13, 15, 18, 20, 22][p % 5] + 12 * g
  }

  function BlackLetterName(g: int, p: int): string {
    if g == 0 then "A♯\nB♭" else ["C♯\nD♭", "D♯\nE♭", "F♯\nG♭", "G♯\nA♭", "A♯\nB♭"][p % 5]
  }

  function WhiteVoice(g: int, p: int): Voice {
    if g == 0 then (if p == 0 then La else Si)
    else if g == 8 then Do
    else [Do, Re, Mi, Fa, So, La, Si][p % 7]
  }

  function WhiteMidi(g: int, p: int): int {
    if g == 0 then (if p == 0 then 21 else 23)
    else if g == 8 then 108
    else [12, 14, 16, 17, 19, 21, 23][p % 7] + 12 * g
  }

  /** The decimal digit of a group number 0..9, as `"C" + keyGroup` prints it. */
  function Digit(g: int): char
    requires 0 <= g < 10
  {
    ('0' as int + g) as char
  }

  function WhiteLetterName(g: int, p: int): string
    requires 0 <= g < 10
  {
    if g == 0 then (if p == 0 then "A0" else "B0")
    else if g == 8 then "C8"
    else [["C", "D", "E", "F", "G", "A", "B"][p % 7][0], Digit(g)]
  }

  /** The pitch class of a voice in semitones above Do (C). */
  function VoicePitch(v: Voice): int {
    match v
    case Do => 0
    case Re => 2
    case Mi => 4
    case Fa => 5
    case So => 7
    case La => 9
    case Si => 11
  }

  /** The letter of a voice in English notation. */
  function VoiceLetter(v: Voice): char {
    match v
    case Do => 'C'
    case Re => 'D'
    case Mi => 'E'
    case Fa => 'F'
    case So => 'G'
    case La => 'A'
    case Si => 'B'
  }

  /**
   * The voice, MIDI and letter tables agree: a white key's MIDI number has its
   * voice's pitch class and its name is the voice's letter followed by the
   * octave MIDI / 12 - 1; a black key is a semitone above its voice and its
   * name starts with that voice's letter.
   */
  lemma WhiteTablesAgree(g: int, p: int)
    requires ValidWhite(g, p)
    ensures WhiteMidi(g, p) % 12 == VoicePitch(WhiteVoice(g, p))
    ensures 0 <= WhiteMidi(g, p) / 12 - 1 < 10
    ensures WhiteLetterName(g, p) == [VoiceLetter(WhiteVoice(g, p)), Digit(WhiteMidi(g, p) / 12 - 1)]
  {
    if 1 <= g < 8 {
      var q := p % 7;
      assert q == p;
      assert WhiteMidi(g, p) == [12, 14, 16, 17, 19, 21, 23][q] + 12 * g;
      assert WhiteMidi(g, p) / 12 == g + 1;
    }
  }

  lemma BlackTablesAgree(g: int, p: int)
    requires ValidBlack(g, p)
    ensures BlackMidi(g, p) % 12 == VoicePitch(BlackVoice(g, p)) + 1
    ensures |BlackLetterName(g, p)| == 5 && BlackLetterName(g, p)[0] == VoiceLetter(BlackVoice(g, p))
  {
    if g != 0 {
      var q := p % 5;
      assert q == p;
      assert BlackMidi(g, p) == [13, 15, 18, 20, 22][q] + 12 * g;
    }
  }

  /** A key's identity: its colour, octave group and position in the group. */
  datatype KeyId = KeyId(keyType: KeyType, group: int, pos: int)

  predicate ValidId(id: KeyId) {
    if id.keyType == Black then ValidBlack(id.group, id.pos) else ValidWhite(id.group, id.pos)
  }

  /** The hit area InitPiano gives a key: a black key's and C8's are their drawable bounds. */
  function IdArea(id: KeyId, d: Dims): Area
    requires ValidId(id)
  {
    if id.keyType == Black then [Some(BlackKeyBounds(id.group, id.pos, d))]
    else if id.group == 8 then [Some(WhiteKeyBounds(id.group, id.pos, d))]
    else WhiteKeyArea(id.group, id.pos, WhitePosition(id.group, id.pos), d)
  }

  function IdBounds(id: KeyId, d: Dims): Rect {
    if id.keyType == Black then BlackKeyBounds(id.group, id.pos, d) else WhiteKeyBounds(id.group, id.pos, d)
  }

  function IdVoice(id: KeyId): Voice {
    if id.keyType == Black then BlackVoice(id.group, id.pos) else WhiteVoice(id.group, id.pos)
  }

  function IdMidi(id: KeyId): int {
    if id.keyType == Black then BlackMidi(id.group, id.pos) else WhiteMidi(id.group, id.pos)
  }

  function IdLetterName(id: KeyId): string
    requires ValidId(id)
  {
    if id.keyType == Black then BlackLetterName(id.group, id.pos) else WhiteLetterName(id.group, id.pos)
  }

  /** Everything InitPiano writes into one key, apart from the pressed flag. */
  datatype KeySpec = KeySpec(
    keyType: KeyType, voice: Voice, group: int, positionOfGroup: int,
    bounds: Rect, areaOfKey: Area, letterName: string, midiNoteNum: int)

  function Spec(id: KeyId, d: Dims): KeySpec
    requires ValidId(id)
  {
    KeySpec(id.keyType, IdVoice(id), id.group, id.pos, IdBounds(id, d), IdArea(id, d), IdLetterName(id), IdMidi(id))
  }
}
