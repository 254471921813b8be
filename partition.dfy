/**
 * How the 88 hit areas InitPiano assigns divide the keyboard
 * [0, 52W) x [0, H): together they cover it, no area reaches outside it, and
 * when the black key width is even every point belongs to exactly one key.
 * When the black width is odd, every black key shares one column with the
 * white key to its right.
 */
module Partition {
  import opened Options
  import opened Rects
  import opened JavaMath
  import opened PianoKeys
  import opened Layout

  function BlackIdOn(j: int): KeyId
    requires BlackAt(j)
  {
    KeyId(Black, BlackIdAt(j).0, BlackIdAt(j).1)
  }

  function WhiteIdIn(s: int): KeyId
    requires 0 <= s < 52
  {
    KeyId(White, WhiteIdAt(s).0, WhiteIdAt(s).1)
  }

  /** The board: the drawn keyboard, 52 white keys wide and H high. */
  predicate OnBoard(x: int, y: int, d: Dims) {
    0 <= x < 52 * d.whiteWidth && 0 <= y < d.height
  }

  /**
   * The key that owns the point at offset r into white slot s, height y, black
   * keys first as HandleDown scans them: the black key reaching into the slot
   * from its left or its right boundary when the point is above the black key
   * height, otherwise the slot's white key.
   */
  function OwnerInSlot(s: int, r: int, y: int, d: Dims): KeyId
    requires 0 <= s < 52
  {
    var half := d.blackWidth / 2;
    if y < d.blackHeight && r < d.blackWidth - half && BlackAt(s) then BlackIdOn(s)
    else if y < d.blackHeight && r >= d.whiteWidth - half && BlackAt(s + 1) then BlackIdOn(s + 1)
    else WhiteIdIn(s)
  }

  lemma AreaOfOne(a: Rect, x: int, y: int)
    ensures AreaHolds([Some(a)], x, y) <==> a.Contains(x, y)
  {
    if a.Contains(x, y) {
      assert [Some(a)][0].value.Contains(x, y);
    }
  }

  lemma AreaOfTwo(a: Rect, b: Rect, x: int, y: int)
    ensures AreaHolds([Some(a), Some(b)], x, y) <==> a.Contains(x, y) || b.Contains(x, y)
  {
    var area := [Some(a), Some(b)];
    if a.Contains(x, y) {
      assert area[0].value.Contains(x, y);
    } else if b.Contains(x, y) {
      assert area[1].value.Contains(x, y);
    }
  }

  lemma AreaOfThree(a: Rect, b: Rect, c: Rect, x: int, y: int)
    ensures AreaHolds([Some(a), Some(b), Some(c)], x, y) <==> a.Contains(x, y) || b.Contains(x, y) || c.Contains(x, y)
  {
    var area := [Some(a), Some(b), Some(c)];
    if a.Contains(x, y) {
      assert area[0].value.Contains(x, y);
    } else if b.Contains(x, y) {
      assert area[1].value.Contains(x, y);
    } else if c.Contains(x, y) {
      assert area[2].value.Contains(x, y);
    }
  }

  /** A black key's area is the strip of width bw centred on its boundary, bh high. */
  lemma BlackHolds(g: int, p: int, d: Dims, x: int, y: int)
    requires SaneDims(d) && ValidBlack(g, p)
    ensures var j, half := BlackBoundary(g, p), d.blackWidth / 2;
      AreaHolds(IdArea(KeyId(Black, g, p), d), x, y) <==>
        j * d.whiteWidth - half <= x < j * d.whiteWidth - half + d.blackWidth && 0 <= y < d.blackHeight
  {
    QuotOfNonNegative(d.blackWidth, 2);
    AreaOfOne(BlackKeyBounds(g, p, d), x, y);
  }

  /**
   * A white key's area is its slot, less the corners of height bh and width
   * bw/2 that the black keys on its boundaries cover.
   */
  lemma WhiteHolds(g: int, p: int, d: Dims, x: int, y: int)
    requires SaneDims(d) && ValidWhite(g, p)
    ensures var s, w, half := WhiteSlot(g, p), d.whiteWidth, d.blackWidth / 2;
      AreaHolds(IdArea(KeyId(White, g, p), d), x, y) <==>
        s * w <= x < s * w + w && 0 <= y < d.height &&
        !(y < d.blackHeight && ((BlackAt(s) && x < s * w + half) || (BlackAt(s + 1) && x >= s * w + w - half)))
  {
    QuotOfNonNegative(d.blackWidth, 2);
    WhitePositionMatchesBlackKeys(g, p);
    var l, r, half := WhiteSlot(g, p) * d.whiteWidth, WhiteSlot(g, p) * d.whiteWidth + d.whiteWidth, d.blackWidth / 2;
    if g == 8 {
      AreaOfOne(WhiteKeyBounds(g, p, d), x, y);
    } else {
      match WhitePosition(g, p)
      case Left =>
        AreaOfTwo(Rect(l, d.blackHeight, l + half, d.height), Rect(l + half, 0, r, d.height), x, y);
      case Center =>
        AreaOfThree(Rect(l, d.blackHeight, l + half, d.height), Rect(l + half, 0, r - half, d.height),
                    Rect(r - half, d.blackHeight, r, d.height), x, y);
      case Right =>
        AreaOfTwo(Rect(l, 0, r - half, d.height), Rect(r - half, d.blackHeight, r, d.height), x, y);
    }
  }

  /** Multiplying by a positive width keeps the order of slot numbers. */
  lemma MulMonotone(a: int, b: int, w: int)
    requires a <= b && w > 0
    ensures a * w <= b * w
  {
    assert b * w - a * w == (b - a) * w;
  }

  lemma MulSucc(s: int, w: int)
    ensures (s + 1) * w == s * w + w
  {
  }

  /** A point lies in one slot only. */
  lemma SlotUnique(x: int, w: int, s1: int, s2: int)
    requires w > 0
    requires s1 * w <= x < s1 * w + w && s2 * w <= x < s2 * w + w
    ensures s1 == s2
  {
    if s1 < s2 {
      MulMonotone(s1 + 1, s2, w);
      MulSucc(s1, w);
    } else if s2 < s1 {
      MulMonotone(s2 + 1, s1, w);
      MulSucc(s2, w);
    }
  }

  /** The slot of a board point is x / W, one of 0..51. */
  lemma BoardHoldsSlot(x: int, w: int)
    requires w > 0 && 0 <= x < 52 * w
    ensures 0 <= x / w < 52
    ensures (x / w) * w <= x < (x / w) * w + w
  {
    var q := x / w;
    assert q * w <= x < q * w + w;
    if q >= 52 {
      MulMonotone(52, q, w);
    } else if q < 0 {
      MulMonotone(q + 1, 0, w);
      MulSucc(q, w);
    }
  }

  lemma LeftBlackHolds(s: int, r: int, x: int, y: int, d: Dims)
    requires SaneDims(d) && 0 <= s < 52 && 0 <= r && x == s * d.whiteWidth + r && 0 <= y
    requires y < d.blackHeight && r < d.blackWidth - d.blackWidth / 2 && BlackAt(s)
    ensures ValidId(OwnerInSlot(s, r, y, d))
    ensures AreaHolds(IdArea(OwnerInSlot(s, r, y, d), d), x, y)
  {
    BlackBoundaryRoundTrip(0, 0, s);
    BlackHolds(BlackIdOn(s).group, BlackIdOn(s).pos, d, x, y);
  }

  lemma RightBlackHolds(s: int, r: int, x: int, y: int, d: Dims)
    requires SaneDims(d) && 0 <= s < 52 && r < d.whiteWidth && x == s * d.whiteWidth + r && 0 <= y
    requires !(y < d.blackHeight && r < d.blackWidth - d.blackWidth / 2 && BlackAt(s))
    requires y < d.blackHeight && r >= d.whiteWidth - d.blackWidth / 2 && BlackAt(s + 1)
    ensures ValidId(OwnerInSlot(s, r, y, d))
    ensures AreaHolds(IdArea(OwnerInSlot(s, r, y, d), d), x, y)
  {
    BlackBoundaryRoundTrip(0, 0, s + 1);
    MulSucc(s, d.whiteWidth);
    BlackHolds(BlackIdOn(s + 1).group, BlackIdOn(s + 1).pos, d, x, y);
  }

  lemma SlotWhiteHolds(s: int, r: int, x: int, y: int, d: Dims)
    requires SaneDims(d) && 0 <= s < 52 && 0 <= r < d.whiteWidth && x == s * d.whiteWidth + r
    requires 0 <= y < d.height
    requires !(y < d.blackHeight && r < d.blackWidth - d.blackWidth / 2 && BlackAt(s))
    requires !(y < d.blackHeight && r >= d.whiteWidth - d.blackWidth / 2 && BlackAt(s + 1))
    ensures ValidId(OwnerInSlot(s, r, y, d))
    ensures AreaHolds(IdArea(OwnerInSlot(s, r, y, d), d), x, y)
  {
    var id := WhiteIdIn(s);
    assert OwnerInSlot(s, r, y, d) == id;
    assert ValidWhite(id.group, id.pos) && WhiteSlot(id.group, id.pos) == s by {
      WhiteSlotRoundTrip(0, 0, s);
    }
    assert d.blackWidth / 2 <= d.blackWidth - d.blackWidth / 2;
    WhiteHoldsInSlot(id.group, id.pos, s, d, x, y);
  }

  /** WhiteHolds for a key whose slot is already known. */
  lemma WhiteHoldsInSlot(g: int, p: int, s: int, d: Dims, x: int, y: int)
    requires SaneDims(d) && ValidWhite(g, p) && WhiteSlot(g, p) == s
    ensures var w, half := d.whiteWidth, d.blackWidth / 2;
      AreaHolds(IdArea(KeyId(White, g, p), d), x, y) <==>
        s * w <= x < s * w + w && 0 <= y < d.height &&
        !(y < d.blackHeight && ((BlackAt(s) && x < s * w + half) || (BlackAt(s + 1) && x >= s * w + w - half)))
  {
    WhiteHolds(g, p, d, x, y);
  }

  /** Every point of the board lies in the area of the owner of its slot. */
  lemma OwnerHolds(s: int, x: int, y: int, d: Dims)
    requires SaneDims(d) && 0 <= s < 52 && s * d.whiteWidth <= x < s * d.whiteWidth + d.whiteWidth
    requires 0 <= y < d.height
    ensures ValidId(OwnerInSlot(s, x - s * d.whiteWidth, y, d))
    ensures AreaHolds(IdArea(OwnerInSlot(s, x - s * d.whiteWidth, y, d), d), x, y)
  {
    var w, half, r := d.whiteWidth, d.blackWidth / 2, x - s * d.whiteWidth;
    if y < d.blackHeight && r < d.blackWidth - half && BlackAt(s) {
      LeftBlackHolds(s, r, x, y, d);
    } else if y < d.blackHeight && r >= w - half && BlackAt(s + 1) {
      RightBlackHolds(s, r, x, y, d);
    } else {
      SlotWhiteHolds(s, r, x, y, d);
    }
  }

  /** The hit areas cover the board. */
  lemma BoardCovered(x: int, y: int, d: Dims)
    requires SaneDims(d) && OnBoard(x, y, d)
    ensures exists id :: ValidId(id) && AreaHolds(IdArea(id, d), x, y)
  {
    BoardHoldsSlot(x, d.whiteWidth);
    var s := x / d.whiteWidth;
    OwnerHolds(s, x, y, d);
  }

  /**
   * The hit test of a key as geometry: for a black key the rectangle centred
   * on its boundary, for a white key its slot less the corners the black keys
   * on its boundaries cover.
   */
  predicate Hit(id: KeyId, d: Dims, x: int, y: int)
    requires ValidId(id)
  {
    var w, half := d.whiteWidth, d.blackWidth / 2;
    if id.keyType == Black then
      var j := BlackBoundary(id.group, id.pos);
      j * w - half <= x < j * w - half + d.blackWidth && 0 <= y < d.blackHeight
    else
      var s := WhiteSlot(id.group, id.pos);
      s * w <= x < s * w + w && 0 <= y < d.height &&
      !(y < d.blackHeight && ((BlackAt(s) && x < s * w + half) || (BlackAt(s + 1) && x >= s * w + w - half)))
  }

  lemma HitIff(id: KeyId, d: Dims, x: int, y: int)
    requires SaneDims(d) && ValidId(id)
    ensures AreaHolds(IdArea(id, d), x, y) <==> Hit(id, d, x, y)
  {
    if id.keyType == Black {
      BlackHolds(id.group, id.pos, d, x, y);
    } else {
      WhiteHolds(id.group, id.pos, d, x, y);
    }
  }

  lemma BlackHitOnBoard(g: int, p: int, d: Dims, x: int, y: int)
    requires SaneDims(d) && ValidBlack(g, p) && Hit(KeyId(Black, g, p), d, x, y)
    ensures OnBoard(x, y, d)
  {
    var w := d.whiteWidth;
    BlackBoundaryRange(g, p);
    var j := BlackBoundary(g, p);
    MulMonotone(1, j, w);
    MulMonotone(j + 1, 51, w);
    MulSucc(j, w);
  }

  lemma SlotOnBoard(s: int, x: int, w: int)
    requires w > 0 && 0 <= s < 52 && s * w <= x < s * w + w
    ensures 0 <= x < 52 * w
  {
    MulMonotone(0, s, w);
    MulMonotone(s + 1, 52, w);
    MulSucc(s, w);
  }

  lemma WhiteHitOnBoard(g: int, p: int, d: Dims, x: int, y: int)
    requires SaneDims(d) && ValidWhite(g, p) && Hit(KeyId(White, g, p), d, x, y)
    ensures OnBoard(x, y, d)
  {
    WhiteSlotRange(g, p);
    SlotOnBoard(WhiteSlot(g, p), x, d.whiteWidth);
  }

  /** Every key's drawable lies on the board: within [0, 52 W] across and [0, H] down. */
  lemma KeyBoundsOnBoard(id: KeyId, d: Dims)
    requires ValidId(id) && SaneDims(d)
    ensures var r := IdBounds(id, d);
      0 <= r.left <= r.right <= 52 * d.whiteWidth && r.top == 0 && r.bottom <= d.height
  {
    var w := d.whiteWidth;
    if id.keyType == Black {
      BlackBoundaryRange(id.group, id.pos);
      var j := BlackBoundary(id.group, id.pos);
      MulMonotone(1, j, w);
      MulMonotone(j, 50, w);
    } else {
      WhiteSlotRange(id.group, id.pos);
      var s := WhiteSlot(id.group, id.pos);
      MulMonotone(0, s, w);
      MulMonotone(s + 1, 52, w);
      MulSucc(s, w);
    }
  }

  /** No key's area reaches outside the board. */
  lemma HoldsOnlyOnBoard(id: KeyId, d: Dims, x: int, y: int)
    requires SaneDims(d) && ValidId(id)
    requires AreaHolds(IdArea(id, d), x, y)
    ensures OnBoard(x, y, d)
  {
    HitIff(id, d, x, y);
    if id.keyType == Black {
      BlackHitOnBoard(id.group, id.pos, d, x, y);
    } else {
      WhiteHitOnBoard(id.group, id.pos, d, x, y);
    }
  }

  lemma OnlyOwnerHitsBlack(g: int, p: int, d: Dims, x: int, y: int, s: int)
    requires SaneDims(d) && ValidBlack(g, p) && d.blackWidth % 2 == 0
    requires Hit(KeyId(Black, g, p), d, x, y)
    requires 0 <= s < 52 && s * d.whiteWidth <= x < s * d.whiteWidth + d.whiteWidth
    ensures KeyId(Black, g, p) == OwnerInSlot(s, x - s * d.whiteWidth, y, d)
  {
    var w := d.whiteWidth;
    BlackBoundaryRoundTrip(g, p, 0);
    var j := BlackBoundary(g, p);
    if x >= j * w {
      SlotUnique(x, w, s, j);
    } else {
      MulSucc(j - 1, w);
      SlotUnique(x, w, s, j - 1);
    }
  }

  lemma OnlyOwnerWhite(g: int, p: int, d: Dims, y: int, s: int, r: int)
    requires ValidWhite(g, p) && d.blackWidth % 2 == 0 && s == WhiteSlot(g, p)
    requires !(y < d.blackHeight && BlackAt(s) && r < d.blackWidth / 2)
    requires !(y < d.blackHeight && BlackAt(s + 1) && r >= d.whiteWidth - d.blackWidth / 2)
    ensures KeyId(White, g, p) == OwnerInSlot(s, r, y, d)
  {
    var half := d.blackWidth / 2;
    assert d.blackWidth - half == half;
    assert !(y < d.blackHeight && r < d.blackWidth - half && BlackAt(s));
    assert OwnerInSlot(s, r, y, d) == WhiteIdIn(s);
    WhiteSlotRoundTrip(g, p, 0);
  }

  lemma OnlyOwnerHitsWhite(g: int, p: int, d: Dims, x: int, y: int, s: int)
    requires SaneDims(d) && ValidWhite(g, p) && d.blackWidth % 2 == 0
    requires Hit(KeyId(White, g, p), d, x, y)
    requires 0 <= s < 52 && s * d.whiteWidth <= x < s * d.whiteWidth + d.whiteWidth
    ensures KeyId(White, g, p) == OwnerInSlot(s, x - s * d.whiteWidth, y, d)
  {
    SlotUnique(x, d.whiteWidth, s, WhiteSlot(g, p));
    OnlyOwnerWhite(g, p, d, y, s, x - s * d.whiteWidth);
  }

  /**
   * With an even black width the areas partition the board: a key holds a
   * point exactly when it is the owner of the point in its slot.
   */
  lemma OnlyOwnerHolds(id: KeyId, d: Dims, x: int, y: int, s: int)
    requires SaneDims(d) && ValidId(id) && d.blackWidth % 2 == 0
    requires AreaHolds(IdArea(id, d), x, y)
    requires 0 <= s < 52 && s * d.whiteWidth <= x < s * d.whiteWidth + d.whiteWidth
    ensures id == OwnerInSlot(s, x - s * d.whiteWidth, y, d)
  {
    HitIff(id, d, x, y);
    if id.keyType == Black {
      OnlyOwnerHitsBlack(id.group, id.pos, d, x, y, s);
    } else {
      OnlyOwnerHitsWhite(id.group, id.pos, d, x, y, s);
    }
  }

  predicate AreasMeet(id1: KeyId, id2: KeyId, d: Dims, x: int, y: int)
    requires ValidId(id1) && ValidId(id2)
  {
    AreaHolds(IdArea(id1, d), x, y) && AreaHolds(IdArea(id2, d), x, y)
  }

  /** Two different keys never share a point when the black width is even. */
  lemma AreasDisjointWhenEven(id1: KeyId, id2: KeyId, d: Dims, x: int, y: int)
    requires SaneDims(d) && ValidId(id1) && ValidId(id2) && d.blackWidth % 2 == 0
    requires AreasMeet(id1, id2, d, x, y)
    ensures id1 == id2
  {
    HoldsOnlyOnBoard(id1, d, x, y);
    BoardHoldsSlot(x, d.whiteWidth);
    var s := x / d.whiteWidth;
    OnlyOwnerHolds(id1, d, x, y, s);
    OnlyOwnerHolds(id2, d, x, y, s);
  }

  /** The column jw + h, for bw = 2h + 1 <= w: inside the strip centred on jw, on the slot's h-th column. */
  lemma OddColumn(jw: int, w: int, bw: int)
    requires bw % 2 == 1 && 0 <= bw <= w
    ensures var h := bw / 2; var x := jw + h;
      jw - h <= x < jw - h + bw && jw <= x < jw + w && !(x < jw + h) && !(x >= jw + w - h)
  {
  }

  /**
   * With an odd black width bw = 2h + 1 the black key on boundary j reaches one
   * column past j*W + h, where the top rectangle of the white key in slot j
   * already starts: both keys hold (j*W + h, 0).
   */
  lemma OddWidthOverlap(j: int, d: Dims)
    requires SaneDims(d) && d.blackWidth % 2 == 1 && d.blackHeight > 0 && BlackAt(j)
    ensures ValidId(BlackIdOn(j)) && ValidId(WhiteIdIn(j))
    ensures BlackIdOn(j) != WhiteIdIn(j)
    ensures AreasMeet(BlackIdOn(j), WhiteIdIn(j), d, j * d.whiteWidth + d.blackWidth / 2, 0)
  {
    var x := j * d.whiteWidth + d.blackWidth / 2;
    BlackBoundaryRoundTrip(0, 0, j);
    WhiteSlotRoundTrip(0, 0, j);
    var b, wt := BlackIdOn(j), WhiteIdIn(j);
    assert AreaHolds(IdArea(b, d), x, 0) by {
      assert BlackBoundary(b.group, b.pos) == j;
      BlackHolds(b.group, b.pos, d, x, 0);
      OddColumn(j * d.whiteWidth, d.whiteWidth, d.blackWidth);
    }
    assert AreaHolds(IdArea(wt, d), x, 0) by {
      assert WhiteSlot(wt.group, wt.pos) == j;
      WhiteHolds(wt.group, wt.pos, d, x, 0);
      OddColumn(j * d.whiteWidth, d.whiteWidth, d.blackWidth);
    }
  }
}
