/** UTF-16 index maps and the IME synchroniser of the Android loop. A string is a sequence of
    Unicode scalar values; Android counts UTF-16 code units (section 2.1 of RFC 2781). */
module Ime {
  import opened Basics

  // ---------------------------------------------------------------------------------------
  // Index maps
  // ---------------------------------------------------------------------------------------

  function LenUtf16(c: char): nat { if c as int < 0x10000 then 1 else 2 }

  function Units(text: string): nat {
    if text == [] then 0 else Units(text[..|text| - 1]) + LenUtf16(text[|text| - 1])
  }

  /** `char_index_to_utf16`: the units of the first `k` characters. */
  function CharToUtf16(text: string, k: nat): nat {
    Units(text[..Min(k, |text|)])
  }

  /** The least character index, from `from` on, whose UTF-16 index is at least `u`; the number
      of characters if there is none. */
  function LeastFrom(text: string, u: nat, from: nat): nat
    requires from <= |text|
    decreases |text| - from
  {
    if from == |text| || CharToUtf16(text, from) >= u then from else LeastFrom(text, u, from + 1)
  }

  function Utf16ToChar(text: string, u: nat): nat { LeastFrom(text, u, 0) }

  lemma NextUnits(text: string, k: nat)
    requires k < |text|
    ensures CharToUtf16(text, k + 1) == CharToUtf16(text, k) + LenUtf16(text[k])
  {
    assert text[..k + 1][..k] == text[..k];
  }

  lemma {:induction false} UnitsIncrease(text: string, j: nat, k: nat)
    requires j <= k <= |text|
    ensures CharToUtf16(text, k) >= CharToUtf16(text, j) + (k - j)
  {
    if j < k {
      UnitsIncrease(text, j, k - 1);
      NextUnits(text, k - 1);
    }
  }

  lemma {:induction false} LeastFromIsLeast(text: string, u: nat, from: nat)
    requires from <= |text|
    ensures from <= LeastFrom(text, u, from) <= |text|
    ensures LeastFrom(text, u, from) < |text| ==> CharToUtf16(text, LeastFrom(text, u, from)) >= u
    ensures forall k: nat :: from <= k < LeastFrom(text, u, from) ==> CharToUtf16(text, k) < u
    decreases |text| - from
  {
    if from < |text| && CharToUtf16(text, from) < u {
      LeastFromIsLeast(text, u, from + 1);
    }
  }

  /** `utf16_index_to_char` as the source computes it. */
  method Utf16IndexToChar(text: string, u: nat) returns (index: nat)
    ensures index == Utf16ToChar(text, u)
  {
    LeastFromIsLeast(text, u, 0);
    var units := 0;
    for i := 0 to |text|
      invariant units == CharToUtf16(text, i)
      invariant i <= Utf16ToChar(text, u)
      invariant i > 0 ==> units < u
    {
      if units >= u {
        return i;
      }
      NextUnits(text, i);
      units := units + LenUtf16(text[i]);
      if units >= u {
        return i + 1;
      }
    }
    return |text|;
  }

  /** The two maps form a Galois connection: within the text, the character index of `u` is at
      most `k` exactly when `u` is at most the UTF-16 index of `k`. */
  lemma Galois(text: string, u: nat, k: nat)
    requires u <= Units(text)
    ensures Utf16ToChar(text, u) <= k <==> u <= CharToUtf16(text, k)
  {
    var least := Utf16ToChar(text, u);
    LeastFromIsLeast(text, u, 0);
    assert text[..|text|] == text;
    if least <= k && k <= |text| {
      UnitsIncrease(text, least, k);
    }
  }

  /** Character to UTF-16 and back is the identity, up to clipping at the end. */
  lemma CharRoundTrip(text: string, k: nat)
    ensures Utf16ToChar(text, CharToUtf16(text, k)) == Min(k, |text|)
  {
    var n, u := Min(k, |text|), CharToUtf16(text, k);
    LeastFromIsLeast(text, u, 0);
    var least := Utf16ToChar(text, u);
    if least < n {
      UnitsIncrease(text, least, n);
    }
  }

  /** A UTF-16 index between two characters, rather than inside a surrogate pair. */
  ghost predicate IsBoundary(text: string, u: nat) {
    exists k: nat :: k <= |text| && CharToUtf16(text, k) == u
  }

  /** An index that is not a boundary lies one unit before its rounded-up character index. */
  lemma InsidePair(text: string, u: nat)
    requires u <= Units(text) && CharToUtf16(text, Utf16ToChar(text, u)) != u
    ensures CharToUtf16(text, Utf16ToChar(text, u)) == u + 1
  {
    var least := Utf16ToChar(text, u);
    LeastFromIsLeast(text, u, 0);
    Galois(text, u, least);
    assert CharToUtf16(text, 0) == 0;
    NextUnits(text, least - 1);
  }

  /** UTF-16 to character and back is the identity exactly at boundaries: an index inside a
      surrogate pair moves to the end of the pair, one past the end moves to the end. */
  lemma Utf16RoundTrip(text: string, u: nat)
    ensures var back := CharToUtf16(text, Utf16ToChar(text, u));
      && (back == u <==> IsBoundary(text, u))
      && (u <= Units(text) && !IsBoundary(text, u) ==> back == u + 1)
      && (u > Units(text) ==> back == Units(text))
  {
    var back := CharToUtf16(text, Utf16ToChar(text, u));
    LeastFromIsLeast(text, u, 0);
    if IsBoundary(text, u) {
      var k: nat :| k <= |text| && CharToUtf16(text, k) == u;
      CharRoundTrip(text, k);
    }
    if u > Units(text) {
      PastEnd(text, u);
    } else if back != u {
      InsidePair(text, u);
    }
  }

  lemma PastEnd(text: string, u: nat)
    requires u > Units(text)
    ensures Utf16ToChar(text, u) == |text| && CharToUtf16(text, |text|) == Units(text)
  {
    LeastFromIsLeast(text, u, 0);
    assert text[..|text|] == text;
    UnitsIncrease(text, Utf16ToChar(text, u), |text|);
  }

  /** The code units of a character. */
  function EncodeUtf16(c: char): (units: seq<nat>)
    ensures |units| == LenUtf16(c)
  {
    var u := c as int;
    if u < 0x1_0000 then [u] else [0xD800 + (u - 0x1_0000) / 0x400, 0xDC00 + (u - 0x1_0000) % 0x400]
  }

  /** The text as Android holds it. */
  function Utf16(text: string): (units: seq<nat>)
    ensures |units| == Units(text)
  {
    if text == [] then [] else Utf16(text[..|text| - 1]) + EncodeUtf16(text[|text| - 1])
  }

  /** The boundaries are the places where no low surrogate stands. */
  lemma {:induction false} BoundaryIff(text: string, u: nat)
    requires u <= Units(text)
    ensures IsBoundary(text, u) <==> u == Units(text) || !(0xDC00 <= Utf16(text)[u] <= 0xDFFF)
  {
    if text == [] {
      assert CharToUtf16(text, 0) == 0;
    } else {
      var n := |text| - 1;
      var init, last := text[..n], EncodeUtf16(text[n]);
      assert text[..n + 1] == text && init[..n] == init;
      assert CharToUtf16(text, n) == Units(init) && CharToUtf16(text, n + 1) == Units(text);
      BoundaryOfPrefix(text, u);
      if u < Units(init) {
        BoundaryIff(init, u);
        assert Utf16(text)[u] == Utf16(init)[u];
      } else if u < Units(text) {
        assert Utf16(text)[u] == last[u - Units(init)];
        assert !(0xDC00 <= last[0] <= 0xDFFF);
        assert |last| == 2 ==> 0xDC00 <= last[1] <= 0xDFFF;
      }
    }
  }

  lemma BoundaryOfPrefix(text: string, u: nat)
    requires text != [] && u <= Units(text)
    ensures var init := text[..|text| - 1];
      IsBoundary(text, u) <==> if u <= Units(init) then IsBoundary(init, u) else u == Units(text)
  {
    var n := |text| - 1;
    var init := text[..n];
    assert text[..n + 1] == text && init[..n] == init;
    forall k: nat | k <= n
      ensures CharToUtf16(text, k) == CharToUtf16(init, k) <= Units(init)
    {
      assert text[..k] == init[..k];
      UnitsIncrease(init, k, n);
    }
    assert CharToUtf16(text, n + 1) == Units(text) > Units(init);
    if u <= Units(init) && IsBoundary(init, u) {
      var k: nat :| k <= n && CharToUtf16(init, k) == u;
      assert CharToUtf16(text, k) == u;
    }
  }

  // ---------------------------------------------------------------------------------------
  // The synchroniser
  // ---------------------------------------------------------------------------------------

  datatype Field = ConfigPath | FritzIp | PcMac

  datatype Span = Span(start: nat, end: nat)

  datatype TextInputState = TextInputState(text: string, selection: Span, composeRegion: Option<Span>)

  /** The focused field as egui shows it; the selection counts characters. */
  datatype Snapshot = Snapshot(field: Field, text: string, selectionStart: nat, selectionEnd: nat, clicked: bool)

  datatype Call =
    | SetTextInputState(state: TextInputState)
    | SetImeEditorInfo
    | ShowSoftInput(implicit: bool)
    | HideSoftInput

  datatype ImeState = ImeState(field: Option<Field>, text: Option<string>, selection: Option<Span>,
                               composeRegion: Option<Span>)

  function SelectionOf(s: Snapshot): Span {
    Span(CharToUtf16(s.text, s.selectionStart), CharToUtf16(s.text, s.selectionEnd))
  }

  predicate Changed(ime: ImeState, s: Snapshot) {
    ime.field != Some(s.field) || ime.text != Some(s.text) || ime.selection != Some(SelectionOf(s))
  }

  function Updated(ime: ImeState, snapshot: Option<Snapshot>, tapped: bool): (ImeState, seq<Call>) {
    match snapshot
    case None =>
      if tapped && ime.field.Some? then (ImeState(None, None, None, None), [HideSoftInput]) else (ime, [])
    case Some(s) =>
      var pushed := if Changed(ime, s) then [SetTextInputState(TextInputState(s.text, SelectionOf(s), None))] else [];
      var shown := if ime.field != Some(s.field) then [SetImeEditorInfo, ShowSoftInput(true)]
                   else if s.clicked then [ShowSoftInput(false)]
                   else [];
      (if Changed(ime, s) then ImeState(Some(s.field), Some(s.text), Some(SelectionOf(s)), None) else ime,
       pushed + shown)
  }

  function Accepted(ime: ImeState, state: TextInputState): ImeState {
    ime.(text := Some(state.text), selection := Some(state.selection), composeRegion := state.composeRegion)
  }

  predicate PushesState(calls: seq<Call>) {
    exists i :: 0 <= i < |calls| && calls[i].SetTextInputState?
  }

  /** When the keyboard is shown, opened again and hidden, and when the state is pushed. */
  lemma CallsMean(ime: ImeState, snapshot: Option<Snapshot>, tapped: bool)
    ensures var calls := Updated(ime, snapshot, tapped).1;
      && (HideSoftInput in calls <==> snapshot.None? && tapped && ime.field.Some?)
      && (ShowSoftInput(true) in calls <==> snapshot.Some? && ime.field != Some(snapshot.value.field))
      && (SetImeEditorInfo in calls <==> snapshot.Some? && ime.field != Some(snapshot.value.field))
      && (ShowSoftInput(false) in calls <==>
          snapshot.Some? && ime.field == Some(snapshot.value.field) && snapshot.value.clicked)
      && (PushesState(calls) <==>
          && snapshot.Some?
          && (ime.field != Some(snapshot.value.field) || ime.text != Some(snapshot.value.text)
              || ime.selection != Some(SelectionOf(snapshot.value))))
  {
    var calls := Updated(ime, snapshot, tapped).1;
    if snapshot.Some? && Changed(ime, snapshot.value) {
      assert calls[0].SetTextInputState?;
    }
  }

  class AndroidIme {
    var field: Option<Field>
    var text: Option<string>
    var selection: Option<Span>
    var composeRegion: Option<Span>

    function View(): ImeState
      reads this
    {
      ImeState(field, text, selection, composeRegion)
    }

    constructor ()
      ensures View() == ImeState(None, None, None, None)
    {
      field, text, selection, composeRegion := None, None, None, None;
    }

    method Update(snapshot: Option<Snapshot>, userTapped: bool) returns (calls: seq<Call>)
      modifies this
      ensures View() == Updated(old(View()), snapshot, userTapped).0
      ensures calls == Updated(old(View()), snapshot, userTapped).1
      ensures HideSoftInput in calls <==> snapshot.None? && userTapped && old(field).Some?
      ensures ShowSoftInput(true) in calls <==> snapshot.Some? && old(field) != Some(snapshot.value.field)
      ensures SetImeEditorInfo in calls <==> snapshot.Some? && old(field) != Some(snapshot.value.field)
      ensures ShowSoftInput(false) in calls <==>
              snapshot.Some? && old(field) == Some(snapshot.value.field) && snapshot.value.clicked
      ensures PushesState(calls) <==>
              && snapshot.Some?
              && (old(field) != Some(snapshot.value.field) || old(text) != Some(snapshot.value.text)
                  || old(selection) != Some(SelectionOf(snapshot.value)))
      ensures snapshot.Some? ==>
                var s := snapshot.value;
                && field == Some(s.field) && text == Some(s.text)
                && selection == Some(Span(CharToUtf16(s.text, s.selectionStart), CharToUtf16(s.text, s.selectionEnd)))
                && composeRegion == if PushesState(calls) then None else old(composeRegion)
      ensures snapshot.None? ==>
                View() == if userTapped && old(field).Some? then ImeState(None, None, None, None) else old(View())
    {
      CallsMean(View(), snapshot, userTapped);
      calls := [];
      if snapshot.None? {
        if userTapped && field.Some? {
          calls := [HideSoftInput];
          field, text, selection, composeRegion := None, None, None, None;
        }
        return;
      }
      var s := snapshot.value;
      var span := SelectionOf(s);
      var changedField := field != Some(s.field);
      if changedField || text != Some(s.text) || selection != Some(span) {
        composeRegion := None;
        calls := calls + [SetTextInputState(TextInputState(s.text, span, None))];
        text := Some(s.text);
        selection := Some(span);
      }
      if changedField {
        calls := calls + [SetImeEditorInfo, ShowSoftInput(true)];
      } else if s.clicked {
        calls := calls + [ShowSoftInput(false)];
      }
      field := Some(s.field);
    }

    method AcceptTextState(state: TextInputState)
      modifies this
      ensures View() == Accepted(old(View()), state)
      ensures field == old(field) && text == Some(state.text) && selection == Some(state.selection)
      ensures composeRegion == state.composeRegion
      ensures forall s: Snapshot :: field == Some(s.field) && s.text == state.text && SelectionOf(s) == state.selection
                ==> !Changed(View(), s)
    {
      text := Some(state.text);
      selection := Some(state.selection);
      composeRegion := state.composeRegion;
    }
  }

  /** The editor state is pushed exactly when it differs from what Android last knew. */
  lemma PushesIffChanged(ime: ImeState, s: Snapshot, tapped: bool)
    ensures PushesState(Updated(ime, Some(s), tapped).1) <==> Changed(ime, s)
    ensures Changed(ime, s) ==>
              Updated(ime, Some(s), tapped).1[0] == SetTextInputState(TextInputState(s.text, SelectionOf(s), None))
  {
    var calls := Updated(ime, Some(s), tapped).1;
    if Changed(ime, s) {
      assert calls[0].SetTextInputState?;
    }
  }

  /** Showing the same editor state again pushes nothing: the publication is edge-triggered. */
  lemma UpdateIsEdgeTriggered(ime: ImeState, s: Snapshot, s': Snapshot, tapped: bool, tapped': bool)
    requires s' == s.(clicked := s'.clicked)
    ensures !PushesState(Updated(Updated(ime, Some(s), tapped).0, Some(s'), tapped').1)
  {
    PushesIffChanged(Updated(ime, Some(s), tapped).0, s', tapped');
  }

  // ---------------------------------------------------------------------------------------
  // The text fields of the app
  // ---------------------------------------------------------------------------------------

  datatype Override = Override(field: Field, start: nat, end: nat)

  datatype Host = Host(configPath: string, fritzIp: string, pcMac: string, shown: Option<Snapshot>,
                       selection: Option<Override>)

  /** What egui reports about a text field in one frame. `primaryIsEnd` is its choice of which
      end of a restored selection is the primary one. */
  datatype Widget = Widget(hasFocus: bool, cursor: Option<Span>, clicked: bool, primaryIsEnd: bool)

  function TextOf(h: Host, field: Field): string {
    match field
    case ConfigPath => h.configPath
    case FritzIp => h.fritzIp
    case PcMac => h.pcMac
  }

  function WithText(h: Host, field: Field, text: string): Host {
    match field
    case ConfigPath => h.(configPath := text)
    case FritzIp => h.(fritzIp := text)
    case PcMac => h.(pcMac := text)
  }

  /** `apply_android_text_input_state`. */
  function AppliedText(h: Host, text: string, start: nat, end: nat): Host {
    if h.shown.None? then h
    else WithText(h, h.shown.value.field, text).(selection := Some(Override(h.shown.value.field, start, end)))
  }

  /** `capture_android_text_edit`. */
  function Captured(h: Host, field: Field, w: Widget): Host {
    var mine := h.selection.Some? && h.selection.value.field == field;
    var cursor :=
      if !mine then w.cursor
      else if w.primaryIsEnd then Some(Span(h.selection.value.end, h.selection.value.start))
      else Some(Span(h.selection.value.start, h.selection.value.end));
    var restored := if mine then h.(selection := None) else h;
    if !w.hasFocus then restored
    else
      var text := TextOf(h, field);
      var range := if cursor.Some? then cursor.value else Span(|text|, |text|);
      restored.(shown := Some(Snapshot(field, text, range.start, range.end, w.clicked)))
  }

  /** A frame with the settings open, in which egui itself edits nothing. */
  function SettingsFrame(h: Host, config: Widget, fritz: Widget, mac: Widget): Host {
    Captured(Captured(Captured(h.(shown := None), ConfigPath, config), FritzIp, fritz), PcMac, mac)
  }

  /** The text-field part of `WakerApp`. */
  class TextFields {
    var configPath: string
    var fritzIp: string
    var pcMac: string
    var androidTextInput: Option<Snapshot>
    var selectionOverride: Option<Override>

    function View(): Host
      reads this
    {
      Host(configPath, fritzIp, pcMac, androidTextInput, selectionOverride)
    }

    method ApplyAndroidTextInputState(text: string, start: nat, end: nat)
      modifies this
      ensures View() == AppliedText(old(View()), text, start, end)
      ensures old(androidTextInput).None? ==> View() == old(View())
      ensures old(androidTextInput).Some? ==>
                var field := old(androidTextInput).value.field;
                && configPath == (if field == ConfigPath then text else old(configPath))
                && fritzIp == (if field == FritzIp then text else old(fritzIp))
                && pcMac == (if field == PcMac then text else old(pcMac))
                && selectionOverride == Some(Override(field, start, end))
    {
      if androidTextInput.None? {
        return;
      }
      var field := androidTextInput.value.field;
      match field {
        case ConfigPath => configPath := text;
        case FritzIp => fritzIp := text;
        case PcMac => pcMac := text;
      }
      selectionOverride := Some(Override(field, start, end));
    }

    method CaptureAndroidTextEdit(field: Field, w: Widget)
      modifies this
      ensures View() == Captured(old(View()), field, w)
      ensures configPath == old(configPath) && fritzIp == old(fritzIp) && pcMac == old(pcMac)
      ensures !w.hasFocus ==> androidTextInput == old(androidTextInput)
      ensures w.hasFocus ==>
                && androidTextInput.Some? && androidTextInput.value.field == field && androidTextInput.value.clicked == w.clicked
                && androidTextInput.value.text
                   == if field == ConfigPath then configPath else if field == FritzIp then fritzIp else pcMac
      ensures var o := old(selectionOverride); var s := androidTextInput;
        if o.None? || o.value.field != field then
          && selectionOverride == o
          && (w.hasFocus && w.cursor.Some? ==> Span(s.value.selectionStart, s.value.selectionEnd) == w.cursor.value)
          && (w.hasFocus && w.cursor.None? ==> s.value.selectionStart == s.value.selectionEnd == |s.value.text|)
        else
          && selectionOverride == None
          && (w.hasFocus ==> (s.value.selectionStart, s.value.selectionEnd)
                             == if w.primaryIsEnd then (o.value.end, o.value.start) else (o.value.start, o.value.end))
    {
      var cursor := w.cursor;
      var taken := selectionOverride;
      selectionOverride := None;
      if taken.Some? {
        if taken.value.field == field {
          cursor := Some(if w.primaryIsEnd then Span(taken.value.end, taken.value.start)
                         else Span(taken.value.start, taken.value.end));
        } else {
          selectionOverride := taken;
        }
      }
      if !w.hasFocus {
        return;
      }
      var text := match field case ConfigPath => configPath case FritzIp => fritzIp case PcMac => pcMac;
      var range := if cursor.Some? then cursor.value else Span(|text|, |text|);
      androidTextInput := Some(Snapshot(field, text, range.start, range.end, w.clicked));
    }
  }

  // ---------------------------------------------------------------------------------------
  // No echo
  // ---------------------------------------------------------------------------------------

  /** One text event from the IME: recorded by the synchroniser, applied to the field. */
  function Edited(ime: ImeState, h: Host, edit: TextInputState): (ImeState, Host) {
    (Accepted(ime, edit),
     AppliedText(h, edit.text, Utf16ToChar(edit.text, edit.selection.start), Utf16ToChar(edit.text, edit.selection.end)))
  }

  function AllEdited(ime: ImeState, h: Host, edits: seq<TextInputState>): (ImeState, Host) {
    if edits == [] then (ime, h)
    else
      var (ime', h') := AllEdited(ime, h, edits[..|edits| - 1]);
      Edited(ime', h', edits[|edits| - 1])
  }

  lemma {:induction false} LastEditWins(ime: ImeState, h: Host, edits: seq<TextInputState>)
    requires edits != [] && h.shown.Some?
    ensures var ((ime', h'), last) := (AllEdited(ime, h, edits), edits[|edits| - 1]);
      && ime' == ImeState(ime.field, Some(last.text), Some(last.selection), last.composeRegion)
      && h'.shown == h.shown
      && TextOf(h', h.shown.value.field) == last.text
      && h'.selection == Some(Override(h.shown.value.field, Utf16ToChar(last.text, last.selection.start),
                                       Utf16ToChar(last.text, last.selection.end)))
  {
    if |edits| > 1 {
      LastEditWins(ime, h, edits[..|edits| - 1]);
    } else {
      assert edits[..0] == [];
    }
  }

  /** Any number of IME edits to the focused field, the last one leaving a collapsed caret at
      UTF-16 index `u`, followed by a frame in which that field keeps the focus: the next
      update pushes the state back to Android exactly when `u` is not a boundary of the text,
      and then it pushes the caret moved to the end of the pair or of the text. */
  lemma EditsAreNotEchoed(ime: ImeState, h: Host, edits: seq<TextInputState>, u: nat,
                          config: Widget, fritz: Widget, mac: Widget, tapped: bool)
    requires h.shown.Some? && ime.field == Some(h.shown.value.field)
    requires edits != [] && edits[|edits| - 1].selection == Span(u, u)
    requires config.hasFocus == h.shown.value.field.ConfigPath?
    requires fritz.hasFocus == h.shown.value.field.FritzIp?
    requires mac.hasFocus == h.shown.value.field.PcMac?
    ensures var (ime', h') := AllEdited(ime, h, edits);
      var next := SettingsFrame(h', config, fritz, mac).shown;
      var text := edits[|edits| - 1].text;
      && next.Some? && next.value.field == h.shown.value.field && next.value.text == text
      && (PushesState(Updated(ime', next, tapped).1) <==> !IsBoundary(text, u))
      && (IsBoundary(text, u) ==> Updated(ime', next, tapped).0 == ime')
      && (!IsBoundary(text, u) ==>
            var caret := if u <= Units(text) then u + 1 else Units(text);
            Updated(ime', next, tapped).1[0] == SetTextInputState(TextInputState(text, Span(caret, caret), None)))
  {
    LastEditWins(ime, h, edits);
    var (ime', h') := AllEdited(ime, h, edits);
    var text := edits[|edits| - 1].text;
    var s := SettingsFrame(h', config, fritz, mac).shown.value;
    assert s.selectionStart == s.selectionEnd == Utf16ToChar(text, u);
    Utf16RoundTrip(text, u);
    PushesIffChanged(ime', s, tapped);
  }
}
