/**
 * Transcript rendering values: message bubbles, the media a bubble may carry,
 * and the per-character delay of the typed reveal.
 */
module Render {
  import opened Wrappers

  /** The `sender` string that becomes the bubble's class, `"user"` or `"violet"`. */
  type Sender = string

  const UserSender: Sender := "user"
  const VioletSender: Sender := "violet"

  /** `data.media`: fields that are absent are held as the empty string. */
  datatype Media = Media(kind: string, src: string)

  /** The `<img>` or `<video controls>` child a bubble can receive. */
  datatype MediaElement = Image(src: string) | Video(src: string)

  /** A message bubble: its sender, the text shown, the media elements appended to it,
      and whether it carries the play-voice button. */
  datatype Bubble = Bubble(sender: Sender, text: string, attachments: seq<MediaElement>, voiceButton: bool)

  /** The elements `addMediaToMessage` appends: nothing unless both `type` and `src`
      are truthy, then an image for `"image"` and a video for `"video"`. */
  function MediaElements(media: Option<Media>): (els: seq<MediaElement>)
    ensures |els| <= 1
    ensures |els| == 1 <==> media.Some? && media.value.src != "" && (media.value.kind == "image" || media.value.kind == "video")
    ensures |els| == 1 ==> els[0].src == media.value.src
    ensures |els| == 1 ==> (els[0].Image? <==> media.value.kind == "image")
  {
    if media.None? || media.value.kind == "" || media.value.src == "" then []
    else
      var m := media.value;
      (if m.kind == "image" then [Image(m.src)] else [])
      + (if m.kind == "video" then [Video(m.src)] else [])
  }

  /** `addMediaToMessage(bubble, media)`: the bubble with its new children. */
  function AttachMedia(b: Bubble, media: Option<Media>): (r: Bubble)
    ensures r.sender == b.sender && r.text == b.text && r.voiceButton == b.voiceButton
    ensures b.attachments <= r.attachments && |r.attachments| <= |b.attachments| + 1
    ensures r.attachments[|b.attachments|..] == MediaElements(media)
  {
    b.(attachments := b.attachments + MediaElements(media))
  }

  const MinDelay: real := 15.0
  const MaxDelay: real := 40.0

  /** `Math.random() * (maxDelay - minDelay) + minDelay` for a draw in [0, 1), over the reals. */
  function StepDelay(draw: real): (d: real)
    requires 0.0 <= draw < 1.0
    ensures MinDelay <= d < MaxDelay
  {
    draw * (MaxDelay - MinDelay) + MinDelay
  }

  /** Total of a sequence of delays. */
  function Sum(delays: seq<real>): real
  {
    if delays == [] then 0.0 else Sum(delays[..|delays| - 1]) + delays[|delays| - 1]
  }

  /** `n` waits of [15, 40) each take between 15n and 40n in total, strictly less than 40n
      when there is at least one. */
  lemma {:induction false} SumOfStepDelays(delays: seq<real>)
    requires forall k :: 0 <= k < |delays| ==> MinDelay <= delays[k] < MaxDelay
    ensures MinDelay * |delays| as real <= Sum(delays) <= MaxDelay * |delays| as real
    ensures delays != [] ==> Sum(delays) < MaxDelay * |delays| as real
  {
    if delays != [] {
      SumOfStepDelays(delays[..|delays| - 1]);
    }
  }

  lemma SumAppend(delays: seq<real>, d: real)
    ensures Sum(delays + [d]) == Sum(delays) + d
  {
    assert (delays + [d])[..|delays|] == delays;
  }

  /** A trace whose `k`-th text is the first `k` characters grows strictly at every step. */
  lemma PrefixTraceGrows(frames: seq<string>, text: string)
    requires |frames| == |text| + 1
    requires forall k :: 0 <= k <= |text| ==> frames[k] == text[..k]
    ensures forall j, k :: 0 <= j < k <= |text| ==> frames[j] < frames[k]
  {
    forall j, k | 0 <= j < k <= |text| ensures frames[j] < frames[k] {
      assert frames[j] == frames[k][..j];
    }
  }
}
