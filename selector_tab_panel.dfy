/**
 * The preset panel of Source/SelectorTabPanel.h and Source/SelectorTabPanel.cpp:
 * the list of render profiles with their visibility, the preset selector's
 * change handler, and the width and height editors' validation. Layout and
 * painting are not modelled; `std::stoi` is replaced by its outcome.
 */
module Selector {
  import opened OpenGL

  const DefaultRenderState := 1
  const MinWidth := 100
  const MaxWidth := 1920
  const MinHeight := 100
  const MaxHeight := 1080
  /** Values of `int` lie in [-IntBound, IntBound); those of `unsigned int` in [0, UintModulus). */
  const IntBound := 0x8000_0000
  const UintModulus := 0x1_0000_0000

  predicate IsInt32(x: int) {
    -IntBound <= x < IntBound
  }

  /** The conversion of an `int` to `unsigned int`: the value modulo 2^32. */
  function ToUint32(x: int): (u: nat)
    requires IsInt32(x)
    ensures u < UintModulus && (u - x) % UintModulus == 0
    ensures 0 <= x ==> u == x
  {
    if x < 0 then x + UintModulus else x
  }

  /** The conversion of an `unsigned int` to `int`; it undoes ToUint32. */
  function ToInt32(u: nat): (x: int)
    requires u < UintModulus
    ensures IsInt32(x) && ToUint32(x) == u
    ensures u < IntBound ==> x == u
  {
    if u < IntBound then u else u - UintModulus
  }

  /** Converting to `unsigned int` and back gives the `int` again. */
  lemma Int32RoundTrip(x: int)
    requires IsInt32(x)
    ensures ToInt32(ToUint32(x)) == x
  {
  }

  /** The background colour of a size editor. */
  datatype Colour = Default | Red | DarkSlateGrey

  /** What `std::stoi` does with the editor's text. */
  datatype Parse = Parsed(value: int) | InvalidArgument | OutOfRange

  /** A RenderProfileComponent: the render state it belongs to, its preset name, whether it is shown. */
  datatype Profile = Profile(stateId: int, presetName: string, visible: bool)

  /** An item of the preset selector: its text and its id. */
  datatype PresetItem = PresetItem(name: string, id: int)

  /** The range and evenness test of a parsed size; C's `i % 2 != 0` is true exactly for odd `i`. */
  predicate SizeAccepted(v: int, lo: int, hi: int) {
    lo <= v <= hi && v % 2 == 0
  }

  /**
   * The shared body of setWidth.onReturnKey and setHeight.onReturnKey: the
   * colour the editor ends up with. A text that is not a number leaves at
   * once with the colour unchanged; an out-of-range number is an error; a
   * number is accepted exactly when it is in range and even.
   */
  method SizeFieldColour(p: Parse, lo: int, hi: int, current: Colour) returns (c: Colour)
    ensures p.InvalidArgument? ==> c == current
    ensures p.OutOfRange? ==> c == Red
    ensures p.Parsed? ==> c == (if SizeAccepted(p.value, lo, hi) then DarkSlateGrey else Red)
  {
    var err := false;
    match p {
      case InvalidArgument =>
        return current;
      case OutOfRange =>
        // `i` is left uninitialised here, but the error is already set.
        err := true;
      case Parsed(i) =>
        if i < lo || i > hi || i % 2 != 0 {
          err := true;
        }
    }
    c := if err then Red else DarkSlateGrey;
  }

  /** Exactly the profile at index `k` is visible. */
  ghost predicate ShowsOnly(ps: seq<Profile>, k: int) {
    forall i :: 0 <= i < |ps| ==> (ps[i].visible <==> i == k)
  }

  /** `1 <= s <= size`, the bounds test of updatePanelRenderProfile on `s - 1`. */
  predicate InRange(s: int, size: nat) {
    0 <= s - 1 < size
  }

  /** The swap keeps "only the selected profile is shown" when both states name a profile. */
  lemma UpdateKeepsSingleVisible(before: seq<Profile>, after: seq<Profile>, newState: int, oldState: int)
    requires ShowsOnly(before, oldState - 1)
    requires InRange(newState, |before|) && InRange(oldState, |before|) && |after| == |before|
    requires after[newState - 1].visible && (newState != oldState ==> !after[oldState - 1].visible)
    requires forall i :: 0 <= i < |after| && i != newState - 1 && i != oldState - 1 ==> after[i] == before[i]
    ensures ShowsOnly(after, newState - 1)
  {
  }

  class SelectorTabPanel {
    const gl: OpenGLComponent
    var profiles: seq<Profile>
    var presetItems: seq<PresetItem>
    var selectedState: nat
    var widthColour: Colour
    var heightColour: Colour

    /**
     * The selection is an `unsigned int`; the profiles are those of the GL
     * component's render states, in order; the GL component keeps its own
     * invariant.
     */
    ghost predicate Valid()
      reads this, gl, gl.encoder
    {
      && selectedState < UintModulus
      && gl.Valid()
      && |profiles| == |gl.renderStates|
      && forall i :: 0 <= i < |profiles| ==>
           profiles[i].stateId == gl.renderStates[i].id && profiles[i].presetName == gl.renderStates[i].presetName
    }

    /**
     * The constructor adds the profile of every render state of the GL
     * component, in order. The selector is then set to the default preset;
     * the change notification that causes is asynchronous and not part of
     * the constructor.
     */
    constructor (component: OpenGLComponent)
      requires component.Valid()
      requires forall i :: 0 <= i < |component.renderStates| ==> IsInt32(component.renderStates[i].id)
      ensures Valid() && gl == component && selectedState == DefaultRenderState
      ensures |profiles| == |presetItems| == |gl.renderStates|
      ensures forall i :: 0 <= i < |profiles| ==>
                && profiles[i].stateId == gl.renderStates[i].id
                && profiles[i].presetName == gl.renderStates[i].presetName
                && (profiles[i].visible <==> gl.renderStates[i].id == DefaultRenderState)
      ensures forall i :: 0 <= i < |presetItems| ==>
                presetItems[i] == PresetItem(gl.renderStates[i].presetName, gl.renderStates[i].id)
      ensures widthColour == Default && heightColour == Default
    {
      gl := component;
      profiles, presetItems := [], [];
      selectedState := DefaultRenderState;
      widthColour, heightColour := Default, Default;
      new;
      var i := 0;
      while i < |gl.renderStates|
        invariant 0 <= i <= |gl.renderStates|
        invariant |profiles| == |presetItems| == i && selectedState == DefaultRenderState
        invariant widthColour == Default && heightColour == Default
        invariant forall j :: 0 <= j < i ==>
                    && profiles[j].stateId == gl.renderStates[j].id
                    && profiles[j].presetName == gl.renderStates[j].presetName
                    && (profiles[j].visible <==> gl.renderStates[j].id == DefaultRenderState)
        invariant forall j :: 0 <= j < i ==>
                    presetItems[j] == PresetItem(gl.renderStates[j].presetName, gl.renderStates[j].id)
      {
        AddRenderProfile(gl.renderStates[i].id, gl.renderStates[i].presetName);
        i := i + 1;
      }
    }

    /**
     * addRenderPofile: append the profile, shown only when its render state
     * is the selected one, and add its preset to the selector.
     */
    method AddRenderProfile(id: int, name: string)
      requires IsInt32(id)
      modifies this`profiles, this`presetItems
      ensures profiles == old(profiles) + [Profile(id, name, ToUint32(id) == selectedState)]
      ensures presetItems == old(presetItems) + [PresetItem(name, id)]
    {
      var visible := true;
      if ToUint32(id) != selectedState {
        visible := false;
      }
      profiles := profiles + [Profile(id, name, visible)];
      presetItems := presetItems + [PresetItem(name, id)];
    }

    /**
     * updatePanelRenderProfile: when both states name a profile, hide the old
     * one and then show the new one; otherwise change nothing.
     */
    method UpdatePanelRenderProfile(newState: int, oldState: int)
      modifies this`profiles
      ensures |profiles| == |old(profiles)|
      ensures !(InRange(newState, |profiles|) && InRange(oldState, |profiles|)) ==> profiles == old(profiles)
      ensures InRange(newState, |profiles|) && InRange(oldState, |profiles|) ==>
                profiles[newState - 1].visible && (newState != oldState ==> !profiles[oldState - 1].visible)
      ensures forall i :: 0 <= i < |profiles| ==> profiles[i] == old(profiles)[i].(visible := profiles[i].visible)
      ensures forall i :: 0 <= i < |profiles| && i != newState - 1 && i != oldState - 1 ==> profiles[i] == old(profiles)[i]
    {
      var newId := newState - 1;
      var oldId := oldState - 1;
      if oldId < 0 || oldId >= |profiles| {
        return;
      }
      if newId < 0 || newId >= |profiles| {
        return;
      }
      profiles := profiles[oldId := profiles[oldId].(visible := false)];
      profiles := profiles[newId := profiles[newId].(visible := true)];
    }

    /**
     * getCurrentRenderProfile: the profile of the selected render state, which
     * the source indexes without a check.
     */
    function GetCurrentRenderProfile(): (p: Profile)
      reads this, gl, gl.encoder
      requires Valid() && 1 <= selectedState <= |profiles|
      ensures p in profiles
      ensures p.stateId == gl.renderStates[selectedState - 1].id
      ensures p.presetName == gl.renderStates[selectedState - 1].presetName
      ensures ShowsOnly(profiles, selectedState - 1) ==> p.visible
    {
      profiles[selectedState - 1]
    }

    /**
     * presetSelector.onChange with the selector's id `newId` (0 when nothing is
     * selected): swap the profiles using the previous selection converted to
     * `int`, then record the new one, converted to `unsigned int`, here and in
     * the GL component. When either state names no profile, the visibility is
     * left as it was although the selection moves.
     */
    method OnPresetChange(newId: int)
      requires Valid() && IsInt32(newId)
      modifies this`profiles, this`selectedState, gl`selectedState
      ensures Valid()
      ensures selectedState == ToUint32(newId) && gl.selectedState == ToUint32(newId)
      ensures ToInt32(selectedState) == newId
      ensures |profiles| == |old(profiles)|
      ensures var oldState := ToInt32(old(selectedState));
              !(InRange(newId, |profiles|) && InRange(oldState, |profiles|)) ==> profiles == old(profiles)
      ensures var oldState := ToInt32(old(selectedState));
              InRange(newId, |profiles|) && InRange(oldState, |profiles|) ==>
                && profiles[newId - 1].visible
                && (newId != oldState ==> !profiles[oldState - 1].visible)
                && (ShowsOnly(old(profiles), oldState - 1) ==> ShowsOnly(profiles, newId - 1))
      ensures forall i :: 0 <= i < |profiles| ==> profiles[i] == old(profiles)[i].(visible := profiles[i].visible)
      ensures forall i :: 0 <= i < |profiles| && i != newId - 1 && i != ToInt32(old(selectedState)) - 1 ==>
                profiles[i] == old(profiles)[i]
    {
      ghost var before := profiles;
      var oldState := ToInt32(selectedState);
      UpdatePanelRenderProfile(newId, oldState);
      if ShowsOnly(before, oldState - 1) && InRange(newId, |profiles|) && InRange(oldState, |profiles|) {
        UpdateKeepsSingleVisible(before, profiles, newId, oldState);
      }
      selectedState := ToUint32(newId);
      Int32RoundTrip(newId);
      gl.SetSelectedState(selectedState);
    }

    /** setWidth.onReturnKey; an accepted width is not applied anywhere. */
    method OnWidthReturnKey(p: Parse)
      modifies this`widthColour
      ensures p.InvalidArgument? ==> widthColour == old(widthColour)
      ensures p.OutOfRange? ==> widthColour == Red
      ensures p.Parsed? ==> (widthColour == DarkSlateGrey <==> SizeAccepted(p.value, MinWidth, MaxWidth))
      ensures p.Parsed? ==> widthColour != Default
    {
      widthColour := SizeFieldColour(p, MinWidth, MaxWidth, widthColour);
    }

    /** setHeight.onReturnKey; an accepted height is not applied anywhere. */
    method OnHeightReturnKey(p: Parse)
      modifies this`heightColour
      ensures p.InvalidArgument? ==> heightColour == old(heightColour)
      ensures p.OutOfRange? ==> heightColour == Red
      ensures p.Parsed? ==> (heightColour == DarkSlateGrey <==> SizeAccepted(p.value, MinHeight, MaxHeight))
      ensures p.Parsed? ==> heightColour != Default
    {
      heightColour := SizeFieldColour(p, MinHeight, MaxHeight, heightColour);
    }
  }
}
