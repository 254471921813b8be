/**
 * The three tiers of highlight labels (Piano.setHighlightedKeys and
 * refreshHighlightedKeys): each tier keeps a list of (MIDI number, text)
 * entries and writes each entry's text into the key at index `midi - 21` of the
 * sorted key list. This module states, per key index, which label a refresh
 * leaves.
 */
module Highlight {
  import opened Options
  import opened PianoKeys

  /** HighlightedKeyInfo: a MIDI number and the text to show on that key. */
  datatype HighlightedKeyInfo = HighlightedKeyInfo(midiNoteNum: int, tmpDisplayName: string)

  /** The tiers: mHighlightedKeyInfoList1..3 and a key's highlightedNoteName1..3. */
  datatype Tier = Tier1 | Tier2 | Tier3

  /** A key's label of one tier. */
  function Label(k: PianoKey, t: Tier): string
    reads k`highlightedNoteName1, k`highlightedNoteName2, k`highlightedNoteName3
  {
    match t
    case Tier1 => k.highlightedNoteName1
    case Tier2 => k.highlightedNoteName2
    case Tier3 => k.highlightedNoteName3
  }

  /** The index into the sorted key list an entry targets: 21 is A0's MIDI number. */
  function KeyIndex(e: HighlightedKeyInfo): int {
    e.midiNoteNum - 21
  }

  /** The text of the last entry that targets index i, if any entry does. */
  function LastNameFor(es: seq<HighlightedKeyInfo>, i: int): (r: Option<string>)
    ensures r.Some? <==> exists k :: 0 <= k < |es| && KeyIndex(es[k]) == i
    ensures r.Some? ==> exists k :: (0 <= k < |es| && KeyIndex(es[k]) == i && es[k].tmpDisplayName == r.value &&
      forall k' :: k < k' < |es| ==> KeyIndex(es[k']) != i)
  {
    if es == [] then None
    else
      var last := es[|es| - 1];
      if KeyIndex(last) == i then Some(last.tmpDisplayName)
      else
        var r := LastNameFor(es[..|es| - 1], i);
        assert forall k :: 0 <= k < |es| - 1 ==> es[..|es| - 1][k] == es[k];
        r
  }

  /** The label at index i after the entries of es were written over `prior`. */
  function WrittenLabel(es: seq<HighlightedKeyInfo>, i: int, prior: string): string {
    match LastNameFor(es, i)
    case Some(name) => name
    case None => prior
  }

  /**
   * The label refreshHighlightedKeys leaves at index i of the sorted list,
   * whose label was `prior`: "" when the tier's list is empty; otherwise the text
   * of the last entry targeting i, and `prior` when no entry does.
   */
  function RefreshedLabel(es: seq<HighlightedKeyInfo>, i: int, prior: string): string {
    if |es| == 0 then "" else WrittenLabel(es, i, prior)
  }

  /** The label a key shows when its tier was cleared before the refresh. */
  function FreshLabel(es: seq<HighlightedKeyInfo>, i: int): string {
    WrittenLabel(es, i, "")
  }

  /** A null list argument of setHighlightedKeys leaves the tier's list empty. */
  function StoredList(arg: Option<seq<HighlightedKeyInfo>>): (es: seq<HighlightedKeyInfo>)
    ensures arg.None? ==> es == []
    ensures arg.Some? ==> es == arg.value
  {
    if arg.None? then [] else arg.value
  }

  /** Later entries win: an entry for i followed by no other entry for i sets the label. */
  lemma LastEntryWins(es: seq<HighlightedKeyInfo>, k: int, prior: string)
    requires 0 <= k < |es|
    requires forall k' :: k < k' < |es| ==> KeyIndex(es[k']) != KeyIndex(es[k])
    ensures RefreshedLabel(es, KeyIndex(es[k]), prior) == es[k].tmpDisplayName
  {
    var i := KeyIndex(es[k]);
    var r := LastNameFor(es, i);
    var k0 :| 0 <= k0 < |es| && KeyIndex(es[k0]) == i && es[k0].tmpDisplayName == r.value &&
      (forall k' :: k0 < k' < |es| ==> KeyIndex(es[k']) != i);
    assert k0 == k;
  }

  /** A non-empty list keeps the label of every index no entry targets. */
  lemma UntargetedLabelKept(es: seq<HighlightedKeyInfo>, i: int, prior: string)
    requires |es| > 0
    requires forall k :: 0 <= k < |es| ==> KeyIndex(es[k]) != i
    ensures RefreshedLabel(es, i, prior) == prior
  {
  }

  /**
   * The view's two calls, first with three nulls and then with the lists,
   * leave on each key the text of the last entry for it, or "".
   */
  lemma ClearThenRefresh(es: seq<HighlightedKeyInfo>, i: int, prior: string)
    ensures RefreshedLabel(es, i, RefreshedLabel([], i, prior)) == FreshLabel(es, i)
  {
  }

  /** Refreshing again with the same list changes no label. */
  lemma RefreshIdempotent(es: seq<HighlightedKeyInfo>, i: int, prior: string)
    ensures RefreshedLabel(es, i, RefreshedLabel(es, i, prior)) == RefreshedLabel(es, i, prior)
  {
  }

  /** A refresh of a key whose label was blank leaves the same label as one after a clear. */
  lemma RefreshFromBlank(es: seq<HighlightedKeyInfo>, i: int)
    ensures RefreshedLabel(es, i, "") == FreshLabel(es, i)
  {
  }

  /** One more entry: the label after a longer prefix of a list, in terms of the shorter. */
  lemma WrittenLabelStep(es: seq<HighlightedKeyInfo>, n: int, i: int, prior: string)
    requires 0 <= n < |es|
    ensures WrittenLabel(es[..n + 1], i, prior) ==
      if KeyIndex(es[n]) == i then es[n].tmpDisplayName else WrittenLabel(es[..n], i, prior)
  {
    assert es[..n + 1][..n] == es[..n];
  }

  /** Set one tier's label of a key: setHighlightedNoteName1, 2 or 3. */
  method SetLabel(k: PianoKey, t: Tier, name: string)
    modifies k`highlightedNoteName1, k`highlightedNoteName2, k`highlightedNoteName3
    ensures Label(k, t) == name
    ensures forall t' :: t' != t ==> Label(k, t') == old(Label(k, t'))
  {
    match t
    case Tier1 => k.SetHighlightedNoteName1(name);
    case Tier2 => k.SetHighlightedNoteName2(name);
    case Tier3 => k.SetHighlightedNoteName3(name);
  }
}
