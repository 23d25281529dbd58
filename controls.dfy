// The page's control state: whether the clear button, the read-aloud button
// and the voice selector are disabled, and the labels of the options in the
// voice selector. The image-load, caption-submit and clear handlers update
// this state in place.
module Controls {

  /** A speech-synthesis voice as the platform lists it. */
  datatype Voice = Voice(name: string, lang: string)

  /** The text of the voice selector's option for a voice, e.g. "Alex (en-US)". */
  function OptionLabel(v: Voice): string
  {
    v.name + " (" + v.lang + ")"
  }

  /** The option labels for a list of voices, one per voice, in list order. */
  function OptionLabels(voices: seq<Voice>): (labels: seq<string>)
    ensures |labels| == |voices|
    ensures forall i :: 0 <= i < |voices| ==> labels[i] == OptionLabel(voices[i])
  {
    if voices == [] then []
    else OptionLabels(voices[..|voices| - 1]) + [OptionLabel(voices[|voices| - 1])]
  }

  /** The labels repeated k times, end to end. */
  function Repeat(labels: seq<string>, k: nat): (r: seq<string>)
  {
    if k == 0 then [] else Repeat(labels, k - 1) + labels
  }

  /** Copy j of the repetition occupies positions j * |labels| up to (j + 1) * |labels|. */
  lemma {:induction false} RepeatAt(labels: seq<string>, k: nat, j: nat, i: nat)
    requires j < k && i < |labels|
    ensures |Repeat(labels, k)| == k * |labels|
    ensures j * |labels| + i < k * |labels|
    ensures Repeat(labels, k)[j * |labels| + i] == labels[i]
  {
    var prev := Repeat(labels, k - 1);
    if j < k - 1 {
      RepeatAt(labels, k - 1, j, i);
    } else {
      if k - 1 > 0 {
        RepeatAt(labels, k - 1, 0, i);
      }
      assert |prev| == (k - 1) * |labels|;
      assert j * |labels| + i == |prev| + i;
    }
  }

  class PageControls {
    var clearDisabled: bool
    var readDisabled: bool
    var voiceSelectionDisabled: bool
    var voiceOptions: seq<string>

    /** The clear and read-aloud buttons are enabled and disabled together. */
    predicate ButtonsAgree()
      reads this
    {
      clearDisabled == readDisabled
    }

    /** The initial state is whatever the page's markup sets; it is not fixed here. */
    constructor (clearDisabled0: bool, readDisabled0: bool, voiceSelectionDisabled0: bool, voiceOptions0: seq<string>)
      ensures clearDisabled == clearDisabled0 && readDisabled == readDisabled0
      ensures voiceSelectionDisabled == voiceSelectionDisabled0 && voiceOptions == voiceOptions0
    {
      clearDisabled := clearDisabled0;
      readDisabled := readDisabled0;
      voiceSelectionDisabled := voiceSelectionDisabled0;
      voiceOptions := voiceOptions0;
    }

    /** A new image has loaded: clear and read-aloud are disabled, the voice selector is untouched. */
    method OnImageLoad()
      modifies this
      ensures clearDisabled && readDisabled && ButtonsAgree()
      ensures voiceSelectionDisabled == old(voiceSelectionDisabled)
      ensures voiceOptions == old(voiceOptions)
    {
      clearDisabled := true;
      readDisabled := true;
    }

    /**
     * The captions were submitted: clear, read-aloud and the voice selector are
     * enabled, and one option per available voice is appended to the selector,
     * after the options already there.
     */
    method OnSubmit(voices: seq<Voice>)
      modifies this
      ensures !clearDisabled && !readDisabled && !voiceSelectionDisabled && ButtonsAgree()
      ensures voiceOptions == old(voiceOptions) + OptionLabels(voices)
      ensures |voiceOptions| == |old(voiceOptions)| + |voices|
    {
      clearDisabled := false;
      readDisabled := false;
      voiceSelectionDisabled := false;

      var i := 0;
      while i < |voices|
        invariant 0 <= i <= |voices|
        invariant voiceOptions == old(voiceOptions) + OptionLabels(voices[..i])
        invariant !clearDisabled && !readDisabled && !voiceSelectionDisabled
      {
        assert voices[..i + 1][..i] == voices[..i];
        assert OptionLabels(voices[..i + 1]) == OptionLabels(voices[..i]) + [OptionLabel(voices[i])];
        voiceOptions := voiceOptions + [OptionLabel(voices[i])];
        i := i + 1;
      }
      assert voices[..i] == voices;
    }

    /** The clear button was clicked: clear and read-aloud are disabled, the voice selector is untouched. */
    method OnClear()
      modifies this
      ensures clearDisabled && readDisabled && ButtonsAgree()
      ensures voiceSelectionDisabled == old(voiceSelectionDisabled)
      ensures voiceOptions == old(voiceOptions)
    {
      clearDisabled := true;
      readDisabled := true;
    }
  }

  /**
   * What a sequence of k submits with the same voice list does to the voice
   * selector: the earlier options stay in front and k copies of the voice
   * labels follow, so the options repeat rather than being refreshed.
   */
  method SubmitRepeatedly(controls: PageControls, voices: seq<Voice>, k: nat)
    modifies controls
    ensures controls.voiceOptions == old(controls.voiceOptions) + Repeat(OptionLabels(voices), k)
    ensures k > 0 ==> !controls.clearDisabled && !controls.readDisabled && !controls.voiceSelectionDisabled
    ensures k == 0 ==> (controls.clearDisabled == old(controls.clearDisabled) &&
                        controls.readDisabled == old(controls.readDisabled) &&
                        controls.voiceSelectionDisabled == old(controls.voiceSelectionDisabled))
  {
    var labels := OptionLabels(voices);
    var n := 0;
    while n < k
      invariant 0 <= n <= k
      invariant controls.voiceOptions == old(controls.voiceOptions) + Repeat(OptionLabels(voices), n)
      invariant n > 0 ==> !controls.clearDisabled && !controls.readDisabled && !controls.voiceSelectionDisabled
      invariant n == 0 ==> (controls.clearDisabled == old(controls.clearDisabled) &&
                            controls.readDisabled == old(controls.readDisabled) &&
                            controls.voiceSelectionDisabled == old(controls.voiceSelectionDisabled))
    {
      controls.OnSubmit(voices);
      assert Repeat(labels, n + 1) == Repeat(labels, n) + labels;
      assert controls.voiceOptions == (old(controls.voiceOptions) + Repeat(labels, n)) + labels;
      n := n + 1;
    }
  }

  /** The user events whose handlers change the control state. */
  datatype Event = ImageLoad | Submit(voices: seq<Voice>) | Clear

  /**
   * Runs the handler for one event. Once the voice selector is enabled no
   * handler disables it again; every handler leaves the two buttons in
   * agreement, whatever they were before; and no handler removes or changes
   * an option already in the selector.
   */
  method Dispatch(controls: PageControls, event: Event)
    modifies controls
    ensures controls.ButtonsAgree()
    ensures !old(controls.voiceSelectionDisabled) ==> !controls.voiceSelectionDisabled
    ensures controls.clearDisabled <==> !event.Submit?
    ensures |controls.voiceOptions| >= |old(controls.voiceOptions)|
    ensures controls.voiceOptions[..|old(controls.voiceOptions)|] == old(controls.voiceOptions)
  {
    match event
    case ImageLoad => controls.OnImageLoad();
    case Submit(voices) => controls.OnSubmit(voices);
    case Clear => controls.OnClear();
  }
}
