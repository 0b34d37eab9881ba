/** The browser speech adapter: choosing the most natural Japanese voice,
    caching that choice, and the calls a spoken alert makes to the speech
    synthesizer. The browser's voice list and its `voiceschanged` event are
    inputs; every call to the synthesizer is recorded in order. */
module Speech {
  import opened Wrappers
  import opened Text
  import opened StableSort

  /** A `SpeechSynthesisVoice`: its name (empty when the browser gives none)
      and its BCP 47 language tag. */
  datatype Voice = Voice(name: string, lang: string)

  /** The `filter` test: "ja-JP", or any tag starting with "ja". */
  function IsJapanese(v: Voice): (b: bool)
    ensures b <==> StartsWith(v.lang, "ja")
  {
    v.lang == "ja-JP" || StartsWith(v.lang, "ja")
  }

  /** The Japanese voices in the browser's order. */
  function JapaneseVoices(voices: seq<Voice>): (r: seq<Voice>)
    ensures |r| <= |voices|
    ensures forall i :: 0 <= i < |r| ==> IsJapanese(r[i])
  {
    if voices == [] then []
    else
      var rest := JapaneseVoices(voices[1..]);
      if IsJapanese(voices[0]) then [voices[0]] + rest else rest
  }

  /** The filter keeps exactly the Japanese voices. */
  lemma {:induction false} JapaneseVoicesMembers(voices: seq<Voice>)
    ensures forall v :: v in JapaneseVoices(voices) <==> v in voices && IsJapanese(v)
    decreases |voices|
  {
    if voices != [] {
      JapaneseVoicesMembers(voices[1..]);
      assert forall v :: v in voices <==> v == voices[0] || v in voices[1..];
    }
  }

  lemma JapaneseVoicesCons(x: Voice, t: seq<Voice>)
    ensures JapaneseVoices([x] + t) == (if IsJapanese(x) then [x] else []) + JapaneseVoices(t)
  {
    assert ([x] + t)[1..] == t;
  }

  /** `ja[j]` sits at some index `i` of `voices`, and the Japanese voices
      before index `i` are exactly `ja[..j]`. */
  lemma {:induction false} JapaneseVoicesIndex(voices: seq<Voice>, j: nat) returns (i: nat)
    requires j < |JapaneseVoices(voices)|
    ensures i < |voices| && voices[i] == JapaneseVoices(voices)[j]
    ensures JapaneseVoices(voices[..i]) == JapaneseVoices(voices)[..j]
    decreases |voices|
  {
    var rest := voices[1..];
    var ja, jr := JapaneseVoices(voices), JapaneseVoices(rest);
    var p := if IsJapanese(voices[0]) then [voices[0]] else [];
    assert voices == [voices[0]] + rest;
    JapaneseVoicesCons(voices[0], rest);
    assert ja == p + jr;
    if IsJapanese(voices[0]) && j == 0 {
      i := 0;
      assert ja[0] == voices[0];
    } else {
      var j' := j - |p|;
      assert ja[j] == jr[j'];
      var i' := JapaneseVoicesIndex(rest, j');
      i := i' + 1;
      assert voices[i] == rest[i'];
      assert voices[..i] == [voices[0]] + rest[..i'];
      JapaneseVoicesCons(voices[0], rest[..i']);
      assert ja[..j] == p + jr[..j'];
    }
  }

  /** The naturalness score of a voice, read off its lowercased name by the
      first rule that matches: "google" 3, "microsoft" or "online" 2,
      "premium" or "enhanced" 1, anything else 0. */
  function Prefer(v: Voice): (score: int)
    ensures 0 <= score <= 3
    ensures var n := LowerAscii(v.name);
      && (score == 3 <==> Contains(n, "google"))
      && (score == 2 <==> !Contains(n, "google") && (Contains(n, "microsoft") || Contains(n, "online")))
      && (score == 1 <==>
            (!Contains(n, "google") && !Contains(n, "microsoft") && !Contains(n, "online")
             && (Contains(n, "premium") || Contains(n, "enhanced"))))
  {
    var n := LowerAscii(v.name);
    if Contains(n, "google") then 3
    else if Contains(n, "microsoft") || Contains(n, "online") then 2
    else if Contains(n, "premium") || Contains(n, "enhanced") then 1
    else 0
  }

  /** The matching ignores case. */
  lemma PreferGoogleExample()
    ensures Prefer(Voice("GOOGLE", "ja-JP")) == 3
  {
    assert LowerAscii("GOOGLE") == "google";
    assert OccursAt("google", "google", 0);
  }

  /** The key of the comparator `(a, b) => prefer(b) - prefer(a)`: ascending
      in it is descending in score. */
  function NegPrefer(v: Voice): real {
    -(Prefer(v) as real)
  }

  /** `selectJapaneseVoice` over the voice list the synthesizer reports (the
      empty list when there is no synthesizer): nothing without a Japanese
      voice, otherwise the head of the Japanese voices stable-sorted by
      descending score, which is a best-scoring Japanese voice. */
  function SelectJapaneseVoice(voices: seq<Voice>): (r: Option<Voice>)
    ensures r.None? <==> forall v :: v in voices ==> !StartsWith(v.lang, "ja")
    ensures r.Some? ==> r.value in voices && StartsWith(r.value.lang, "ja")
    ensures r.Some? ==> forall v :: v in voices && IsJapanese(v) ==> Prefer(v) <= Prefer(r.value)
  {
    var ja := JapaneseVoices(voices);
    JapaneseVoicesMembers(voices);
    if |ja| == 0 then None
    else
      SortedHeadIsBest(ja);
      Some(SortBy(ja, NegPrefer)[0])
  }

  /** The head of the stable sort by descending score is one of the voices
      and scores at least as high as every one of them. */
  lemma SortedHeadIsBest(ja: seq<Voice>)
    requires |ja| > 0
    ensures SortBy(ja, NegPrefer)[0] in ja
    ensures forall v :: v in ja ==> Prefer(v) <= Prefer(SortBy(ja, NegPrefer)[0])
  {
    var sorted := SortBy(ja, NegPrefer);
    assert sorted[0] in multiset(ja);
    forall v | v in ja ensures Prefer(v) <= Prefer(sorted[0]) {
      assert v in multiset(sorted);
      var i :| 0 <= i < |sorted| && sorted[i] == v;
      assert NegPrefer(sorted[0]) <= NegPrefer(sorted[i]);
    }
  }

  /** Ties go to the browser's order: the chosen voice is, among the
      best-scoring Japanese voices, the first in the list. */
  lemma SelectionIsFirstBest(voices: seq<Voice>)
    requires SelectJapaneseVoice(voices).Some?
    ensures var v := SelectJapaneseVoice(voices).value;
      exists i :: 0 <= i < |voices| && voices[i] == v
        && forall k :: 0 <= k < i && IsJapanese(voices[k]) ==> Prefer(voices[k]) < Prefer(v)
  {
    var ja := JapaneseVoices(voices);
    var j := FirstMinIndex(ja, NegPrefer);
    SortByHead(ja, NegPrefer);
    var v := ja[j];
    var i := JapaneseVoicesIndex(voices, j);
    JapaneseVoicesMembers(voices[..i]);
    forall k | 0 <= k < i && IsJapanese(voices[k]) ensures Prefer(voices[k]) < Prefer(v) {
      assert voices[k] in voices[..i];
      assert voices[k] in ja[..j];
      var m :| 0 <= m < j && ja[..j][m] == voices[k];
      assert NegPrefer(v) < NegPrefer(ja[m]);
    }
  }

  /** `cachedJapaneseVoice`: not yet chosen (`undefined`), or a choice, which
      may be "none" (`null`). */
  datatype VoiceCache = Unset | Cached(voice: Option<Voice>)

  /** A `SpeechSynthesisUtterance` as queued; `voice` is left unset (the
      browser's default) when no Japanese voice was found. */
  datatype Utterance = Utterance(text: string, lang: string, rate: real, pitch: real, voice: Option<Voice>)

  /** A call made to `window.speechSynthesis`. */
  datatype SynthCall = CancelCall | SpeakCall(utterance: Utterance)

  /** What `getJapaneseVoice` answers for a given cache and voice list. */
  function CachedOrSelected(cache: VoiceCache, hasSynth: bool, voices: seq<Voice>): (r: Option<Voice>)
    ensures cache.Cached? ==> r == cache.voice
    ensures cache.Unset? && (!hasSynth || voices == []) ==> r == None
    ensures cache.Unset? && hasSynth && voices != [] ==> r == SelectJapaneseVoice(voices)
  {
    if cache.Cached? then cache.voice
    else if !hasSynth || voices == [] then None
    else SelectJapaneseVoice(voices)
  }

  /** The module-level state behind the adapter. */
  class SpeechEngine {
    /** whether `window.speechSynthesis` exists */
    const hasSynth: bool
    /** what `getVoices()` currently returns */
    var voices: seq<Voice>
    var cache: VoiceCache
    /** whether the one-shot `voiceschanged` listener is registered */
    var listenerArmed: bool
    /** every call made to the synthesizer, oldest first */
    var calls: seq<SynthCall>

    /** Nothing is cached without a synthesizer; a cached voice is Japanese;
        the listener is only pending while the cached answer is "none". */
    ghost predicate Valid()
      reads this
    {
      && (!hasSynth ==> cache == Unset && !listenerArmed && calls == [])
      && (cache.Cached? && cache.voice.Some? ==> StartsWith(cache.voice.value.lang, "ja"))
      && (listenerArmed ==> cache == Cached(None))
    }

    constructor (hasSynth: bool, voices: seq<Voice>)
      ensures Valid()
      ensures this.hasSynth == hasSynth && this.voices == voices
      ensures cache == Unset && !listenerArmed && calls == []
    {
      this.hasSynth := hasSynth;
      this.voices := voices;
      cache := Unset;
      listenerArmed := false;
      calls := [];
    }

    /** The browser's voice list became `newVoices` (`voiceschanged`): a
        pending listener re-selects from the new list and unregisters. */
    method VoicesChanged(newVoices: seq<Voice>)
      requires Valid()
      requires hasSynth
      modifies this
      ensures Valid()
      ensures voices == newVoices && !listenerArmed
      ensures old(listenerArmed) ==> cache == Cached(SelectJapaneseVoice(newVoices))
      ensures !old(listenerArmed) ==> cache == old(cache)
      ensures calls == old(calls)
    {
      voices := newVoices;
      if listenerArmed {
        cache := Cached(SelectJapaneseVoice(newVoices));
        listenerArmed := false;
      }
    }

    /** `getJapaneseVoice`: a cached answer is returned as is; otherwise
        nothing without a synthesizer; with an empty voice list "none" is
        cached and the listener registered; else the selection is cached. */
    method GetJapaneseVoice() returns (v: Option<Voice>)
      requires Valid()
      modifies this
      ensures Valid()
      ensures v == CachedOrSelected(old(cache), hasSynth, voices)
      ensures old(cache).Cached? ==> cache == old(cache) && listenerArmed == old(listenerArmed)
      ensures old(cache).Unset? && hasSynth ==> cache == Cached(v)
      ensures old(cache).Unset? && hasSynth ==> listenerArmed == (voices == [])
      ensures !hasSynth ==> cache == Unset && !listenerArmed
      ensures voices == old(voices) && calls == old(calls)
    {
      if cache.Cached? {
        return cache.voice;
      }
      if !hasSynth {
        return None;
      }
      if |voices| == 0 {
        cache := Cached(None);
        listenerArmed := true;
        return None;
      }
      v := SelectJapaneseVoice(voices);
      cache := Cached(v);
    }

    /** `speak`: with a synthesizer, cancel whatever is playing, then queue
        the text in Japanese at rate 1.08 and pitch 1, with the Japanese voice
        when one is known. Without one, nothing happens. */
    method Speak(text: string)
      requires Valid()
      modifies this
      ensures Valid()
      ensures !hasSynth ==> calls == old(calls) && cache == old(cache)
      ensures hasSynth ==> calls == old(calls) + [CancelCall, SpeakCall(Utterance(text, "ja-JP", 1.08, 1.0,
                                CachedOrSelected(old(cache), hasSynth, old(voices))))]
      ensures hasSynth ==> cache == (if old(cache).Cached? then old(cache)
                                     else Cached(CachedOrSelected(old(cache), true, old(voices))))
      ensures hasSynth ==> listenerArmed == (if old(cache).Cached? then old(listenerArmed) else old(voices) == [])
      ensures !hasSynth ==> listenerArmed == old(listenerArmed)
      ensures voices == old(voices)
    {
      if !hasSynth {
        return;
      }
      calls := calls + [CancelCall];
      var voice := GetJapaneseVoice();
      calls := calls + [SpeakCall(Utterance(text, "ja-JP", 1.08, 1.0, voice))];
    }

    /** `cancel`: stop playback when there is a synthesizer. */
    method Cancel()
      requires Valid()
      modifies this
      ensures Valid()
      ensures calls == if hasSynth then old(calls) + [CancelCall] else old(calls)
      ensures voices == old(voices) && cache == old(cache) && listenerArmed == old(listenerArmed)
    {
      if hasSynth {
        calls := calls + [CancelCall];
      }
    }
  }

  /** A voice chosen for an utterance is always a Japanese one. */
  lemma UtteranceVoiceIsJapanese(cache: VoiceCache, voices: seq<Voice>)
    requires cache.Cached? && cache.voice.Some? ==> StartsWith(cache.voice.value.lang, "ja")
    requires CachedOrSelected(cache, true, voices).Some?
    ensures StartsWith(CachedOrSelected(cache, true, voices).value.lang, "ja")
  {
  }
}
