/**
 * Voice selection over the platform's synthesis voices, and narration of a
 * reply (cancel whatever is speaking, then speak the new utterance).
 */
module Voice {
  import opened Wrappers
  import JsText

  /** A `SpeechSynthesisVoice`, reduced to the two fields the selection reads. */
  datatype SpeechVoice = SpeechVoice(name: string, lang: string)

  /** `/en/i.test(v.lang)` */
  predicate IsEnglish(v: SpeechVoice) {
    JsText.ContainsIgnoreCase(v.lang, "en")
  }

  /** `/female/i.test(v.name) && /en/i.test(v.lang)` */
  predicate IsPreferred(v: SpeechVoice) {
    JsText.ContainsIgnoreCase(v.name, "female") && IsEnglish(v)
  }

  /** Index of the first voice satisfying `p`, as `Array.prototype.find` scans. */
  function FindFirst(voices: seq<SpeechVoice>, p: SpeechVoice -> bool): (r: Option<nat>)
    ensures r.Some? ==> r.value < |voices| && p(voices[r.value])
    ensures r.Some? ==> forall j :: 0 <= j < r.value ==> !p(voices[j])
    ensures r.None? ==> forall j :: 0 <= j < |voices| ==> !p(voices[j])
  {
    if voices == [] then None
    else if p(voices[0]) then Some(0)
    else match FindFirst(voices[1..], p)
      case None => None
      case Some(k) => Some(k + 1)
  }

  /** Voice `i` is the first in the list to satisfy `p`. */
  ghost predicate IsFirstWith(voices: seq<SpeechVoice>, i: int, p: SpeechVoice -> bool) {
    0 <= i < |voices| && p(voices[i]) && forall j :: 0 <= j < i ==> !p(voices[j])
  }

  /** `getVioletVoice()`: a female English voice, else an English voice, else the first. */
  function SelectVoice(voices: seq<SpeechVoice>): (r: Option<SpeechVoice>)
    ensures r.None? <==> voices == []
    ensures r.Some? ==> r.value in voices
    ensures forall i :: IsFirstWith(voices, i, IsPreferred) ==> r == Some(voices[i])
    ensures (forall j :: 0 <= j < |voices| ==> !IsPreferred(voices[j])) ==>
              forall i :: IsFirstWith(voices, i, IsEnglish) ==> r == Some(voices[i])
    ensures voices != [] && (forall j :: 0 <= j < |voices| ==> !IsEnglish(voices[j])) ==>
              r == Some(voices[0])
  {
    match FindFirst(voices, IsPreferred)
    case Some(i) => Some(voices[i])
    case None =>
      match FindFirst(voices, IsEnglish)
      case Some(i) => Some(voices[i])
      case None => if voices == [] then None else Some(voices[0])
  }

  /** `"de-DE"` and `"de-AT"` contain no `en` in any letter case. */
  lemma GermanIsNotEnglish(lang: string)
    requires lang == "de-DE" || lang == "de-AT"
    ensures !JsText.ContainsIgnoreCase(lang, "en")
  {
    var l := JsText.LowerAscii(lang);
    assert l[0] == 'd' && l[1] == 'e' && l[2] == '-' && l[3] != 'e';
  }

  /** A US-English voice named as female is preferred over the voices around it. */
  lemma FemaleEnglishVoiceIsPreferred()
    ensures SelectVoice([SpeechVoice("Anna", "de-DE"), SpeechVoice("Samantha Female", "en-US"), SpeechVoice("Daniel", "en-GB")])
         == Some(SpeechVoice("Samantha Female", "en-US"))
  {
    var voices := [SpeechVoice("Anna", "de-DE"), SpeechVoice("Samantha Female", "en-US"), SpeechVoice("Daniel", "en-GB")];
    GermanIsNotEnglish(voices[0].lang);
    var lang, name := JsText.LowerAscii(voices[1].lang), JsText.LowerAscii(voices[1].name);
    assert lang[..2] == "en" by { assert lang[0] == 'e' && lang[1] == 'n'; }
    assert JsText.OccursAt(lang, "en", 0);
    assert name[9..15] == "female" by {
      assert name[9] == 'f' && name[10] == 'e' && name[11] == 'm' && name[12] == 'a' && name[13] == 'l' && name[14] == 'e';
    }
    assert JsText.OccursAt(name, "female", 9);
    assert IsFirstWith(voices, 1, IsPreferred);
  }

  /** Without a female English voice the first English one is chosen. */
  lemma EnglishVoiceIsNextBest()
    ensures SelectVoice([SpeechVoice("Anna", "de-DE"), SpeechVoice("Daniel", "en-GB")]) == Some(SpeechVoice("Daniel", "en-GB"))
  {
    var voices := [SpeechVoice("Anna", "de-DE"), SpeechVoice("Daniel", "en-GB")];
    GermanIsNotEnglish(voices[0].lang);
    var lang, name := JsText.LowerAscii(voices[1].lang), JsText.LowerAscii(voices[1].name);
    assert lang[..2] == "en" by { assert lang[0] == 'e' && lang[1] == 'n'; }
    assert JsText.OccursAt(lang, "en", 0);
    assert !IsPreferred(voices[1]) by {
      assert |name| == 6 && name[0] == 'd';
    }
    assert IsFirstWith(voices, 1, IsEnglish);
  }

  /** With no English voice at all, the first voice in the list is used. */
  lemma FirstVoiceIsLastResort()
    ensures SelectVoice([SpeechVoice("Anna", "de-DE"), SpeechVoice("Markus", "de-AT")]) == Some(SpeechVoice("Anna", "de-DE"))
  {
    GermanIsNotEnglish("de-DE");
    GermanIsNotEnglish("de-AT");
  }

  /** An utterance handed to the engine; rate 1.0 and pitch 1.1 are not modelled. */
  datatype Utterance = Utterance(text: string, voice: Option<SpeechVoice>)

  /** `window.speechSynthesis`, reduced to its queue of pending utterances. */
  class Narrator {
    const supported: bool
    var queue: seq<Utterance>

    constructor (supported: bool)
      ensures this.supported == supported && queue == []
    {
      this.supported := supported;
      queue := [];
    }

    /** `playVioletVoice(text)` given the voices the engine currently lists. */
    method PlayVoice(text: string, voices: seq<SpeechVoice>)
      modifies this
      ensures !supported ==> queue == old(queue)
      ensures supported ==> queue == [Utterance(text, SelectVoice(voices))]
    {
      if !supported {
        return;
      }
      var utter := Utterance(text, None);
      var voice := SelectVoice(voices);
      if voice.Some? {
        utter := utter.(voice := voice);
      }
      queue := [];              // cancel()
      queue := queue + [utter]; // speak(utter)
    }
  }
}
