/** The spoken alert: one Japanese sentence built from the ranked nearby list.
    The wording is fixed, so every separator is stated exactly. */
module VoiceMessage {
  import opened Text
  import opened Accidents

  /** "Please be careful.", which closes every non-empty alert. */
  const Caution := "ご注意ください。"
  /** "An accident has happened here before.", read for a blank description. */
  const Fallback := "過去に事故が発生しています"
  /** The Japanese full stop. */
  const Maru := "。"
  /** The end of a single-accident alert: a full stop and the caution. */
  const Closing := "。ご注意ください。"
  /** The whole alert for one accident with a blank description. */
  const FallbackAlert := "過去に事故が発生しています。ご注意ください。"
  /** The two halves of the count introduction, around the count. */
  const IntroHead := "付近に"
  const IntroTail := "件の事故履歴があります。"
  /** "-th item." after an accident's number. */
  const Ordinal := "件目。"

  lemma ClosingParts()
    ensures Closing == Maru + Caution
  {
  }

  lemma FallbackAlertParts()
    ensures FallbackAlert == Fallback + Closing
  {
  }

  lemma FallbackEdges()
    ensures IsTrimmed(Fallback)
  {
  }

  /** The description as it is read out: trimmed, or the fallback sentence when
      nothing is left after trimming. */
  function SpokenDescription(description: string): (r: string)
    ensures IsTrimmed(r)
    ensures AllWhitespace(description) ==> r == Fallback
    ensures !AllWhitespace(description) ==> r == Trim(description)
  {
    var desc := Trim(description);
    if desc == [] then
      FallbackEdges();
      Fallback
    else desc
  }

  /** `buildVoiceMessage`: the alert for a single accident. */
  function BuildVoiceMessage(a: AccidentWithDistance): (r: string)
    ensures AllWhitespace(a.accident.description) ==> r == FallbackAlert
    ensures !AllWhitespace(a.accident.description) ==> r == Trim(a.accident.description) + Closing
    ensures r == SpokenDescription(a.accident.description) + Closing
  {
    var desc := Trim(a.accident.description);
    if desc == [] then
      FallbackAlertParts();
      FallbackAlert
    else desc + Closing
  }

  /** The spoken description can be read back off a single-accident alert: drop
      the closing "。ご注意ください。". */
  lemma SingleMessageRecoversDescription(a: AccidentWithDistance)
    ensures var r := BuildVoiceMessage(a);
      && EndsWith(r, Closing)
      && r[..|r| - |Closing|] == SpokenDescription(a.accident.description)
  {
    ConcatEnds(SpokenDescription(a.accident.description), Closing);
  }

  /** "There are {n} accident records nearby." */
  function Intro(n: nat): string {
    IntroHead + NatToString(n) + IntroTail
  }

  /** The reading of the `i`-th accident (counted from 0): "{i+1}件目。{description}。". */
  function Part(i: nat, a: AccidentWithDistance): string {
    NatToString(i + 1) + Ordinal + SpokenDescription(a.accident.description) + Maru
  }

  /** The readings of all accidents, numbered from 1 in list order. */
  function Parts(accidents: seq<AccidentWithDistance>): (r: seq<string>)
    ensures |r| == |accidents|
    ensures forall i :: 0 <= i < |r| ==> r[i] == Part(i, accidents[i])
  {
    MapWithIndex(accidents, Part)
  }

  /** `buildVoiceMessageForMultiple`: nothing for no accident, the single
      message for one, and for two or more a count introduction, the numbered
      readings joined by one space, and the closing caution directly after. */
  function BuildVoiceMessageForMultiple(accidents: seq<AccidentWithDistance>): (r: string)
    ensures |accidents| == 0 <==> r == ""
    ensures |accidents| == 1 ==> r == BuildVoiceMessage(accidents[0])
    ensures |accidents| >= 2 ==> r == Intro(|accidents|) + Join(Parts(accidents), " ") + Caution
    ensures |accidents| >= 1 ==> EndsWith(r, Caution)
    ensures |accidents| >= 2 ==> StartsWith(r, Intro(|accidents|))
  {
    if |accidents| == 0 then ""
    else if |accidents| == 1 then
      SingleEndsWithCaution(accidents[0]);
      BuildVoiceMessage(accidents[0])
    else
      IntroBodyCaution(Intro(|accidents|), Join(Parts(accidents), " "));
      Intro(|accidents|) + Join(Parts(accidents), " ") + Caution
  }

  lemma SingleEndsWithCaution(a: AccidentWithDistance)
    ensures EndsWith(BuildVoiceMessage(a), Caution)
  {
    ClosingParts();
    ConcatEnds(Maru, Caution);
    EndsWithPrepend(SpokenDescription(a.accident.description), Closing, Caution);
  }

  lemma IntroBodyCaution(intro: string, body: string)
    ensures StartsWith(intro + body + Caution, intro) && EndsWith(intro + body + Caution, Caution)
  {
    ConcatEnds(intro + body, Caution);
    ConcatEnds(intro, body + Caution);
    assert intro + body + Caution == intro + (body + Caution);
  }

  lemma JoinPartsSnoc(accidents: seq<AccidentWithDistance>, a: AccidentWithDistance)
    requires |accidents| >= 1
    ensures Join(Parts(accidents + [a]), " ") == Join(Parts(accidents), " ") + " " + Part(|accidents|, a)
  {
    MapWithIndexSnoc(accidents, a, Part);
    JoinSnoc(Parts(accidents), Part(|accidents|, a), " ");
  }

  /** One more accident in a list of two or more adds exactly one space and
      its own numbered reading before the caution, and bumps the count. */
  lemma MultipleMessageSnoc(accidents: seq<AccidentWithDistance>, a: AccidentWithDistance)
    requires |accidents| >= 2
    ensures BuildVoiceMessageForMultiple(accidents + [a])
      == Intro(|accidents| + 1) + (Join(Parts(accidents), " ") + " " + Part(|accidents|, a)) + Caution
  {
    var longer := accidents + [a];
    assert |longer| == |accidents| + 1;
    var body := Join(Parts(longer), " ");
    assert BuildVoiceMessageForMultiple(longer) == Intro(|accidents| + 1) + body + Caution;
    JoinPartsSnoc(accidents, a);
  }

  /** The count read out in the introduction is the number of accidents:
      the digits after "付近に" read back as `n`. */
  lemma IntroCount(n: nat)
    ensures var digits := NatToString(n);
      && |Intro(n)| >= |IntroHead| + |digits|
      && DecimalValue(Intro(n)[|IntroHead|..|IntroHead| + |digits|]) == n
  {
    DigitsReadBack(IntroHead, n, IntroTail);
  }

  /** The worked example: two accidents described "A" and "B". */
  lemma TwoAccidentExample(a: AccidentWithDistance, b: AccidentWithDistance)
    requires a.accident.description == "A" && b.accident.description == "B"
    ensures BuildVoiceMessageForMultiple([a, b])
      == "付近に2件の事故履歴があります。1件目。A。 2件目。B。ご注意ください。"
  {
    ExampleIntro();
    ExampleBody(a, b);
    ExampleText("付近に2件の事故履歴があります。", "1件目。A。 2件目。B。");
  }

  lemma ExampleIntro()
    ensures Intro(2) == "付近に2件の事故履歴があります。"
  {
    assert DigitChar(2) == '2';
    assert NatToString(2) == "2";
    assert IntroHead + "2" + IntroTail == "付近に2件の事故履歴があります。";
  }

  lemma ExampleBody(a: AccidentWithDistance, b: AccidentWithDistance)
    requires a.accident.description == "A" && b.accident.description == "B"
    ensures Join(Parts([a, b]), " ") == "1件目。A。 2件目。B。"
  {
    var parts := Parts([a, b]);
    assert parts == [parts[0], parts[1]];
    JoinTwo(parts[0], parts[1], " ");
    ExampleParts(a, b);
    LiteralBody();
  }

  lemma ExampleParts(a: AccidentWithDistance, b: AccidentWithDistance)
    requires a.accident.description == "A" && b.accident.description == "B"
    ensures Parts([a, b])[0] == "1件目。A。" && Parts([a, b])[1] == "2件目。B。"
  {
    ExamplePartA(a);
    ExamplePartB(b);
  }

  lemma JoinTwo(p: string, q: string, sep: string)
    ensures Join([p, q], sep) == p + sep + q
  {
    assert [p, q][1..] == [q];
  }

  lemma LiteralBody()
    ensures "1件目。A。" + " " + "2件目。B。" == "1件目。A。 2件目。B。"
  {
  }

  lemma ExampleText(intro: string, body: string)
    requires intro == "付近に2件の事故履歴があります。" && body == "1件目。A。 2件目。B。"
    ensures intro + body + Caution
      == "付近に2件の事故履歴があります。1件目。A。 2件目。B。ご注意ください。"
  {
  }

  lemma ExamplePartA(a: AccidentWithDistance)
    requires a.accident.description == "A"
    ensures Part(0, a) == "1件目。A。"
  {
    assert Part(0, a) == "1" + Ordinal + "A" + Maru by {
      assert NatToString(1) == "1" by {
        assert DigitChar(1) == '1';
      }
      SpokenPlain(a.accident.description);
    }
    LiteralPartA();
  }

  lemma LiteralPartA()
    ensures "1" + Ordinal + "A" + Maru == "1件目。A。"
  {
  }

  lemma ExamplePartB(b: AccidentWithDistance)
    requires b.accident.description == "B"
    ensures Part(1, b) == "2件目。B。"
  {
    assert Part(1, b) == "2" + Ordinal + "B" + Maru by {
      assert NatToString(2) == "2" by {
        assert DigitChar(2) == '2';
      }
      SpokenPlain(b.accident.description);
    }
    LiteralPartB();
  }

  lemma LiteralPartB()
    ensures "2" + Ordinal + "B" + Maru == "2件目。B。"
  {
  }

  /** A description without whitespace at its ends is read as it is. */
  lemma SpokenPlain(d: string)
    requires IsTrimmed(d)
    ensures SpokenDescription(d) == d
  {
    TrimKeepsTrimmed(d);
    assert !IsJsWhitespace(d[0]);
  }

  /** A single accident with a plain description is read as that description. */
  lemma PlainDescriptionExample(a: AccidentWithDistance)
    requires a.accident.description == "転落事故"
    ensures BuildVoiceMessageForMultiple([a]) == "転落事故。ご注意ください。"
  {
    assert BuildVoiceMessageForMultiple([a]) == "転落事故" + Closing by {
      SpokenPlain(a.accident.description);
    }
    LiteralPlain();
  }

  lemma LiteralPlain()
    ensures "転落事故" + Closing == "転落事故。ご注意ください。"
  {
  }

  /** A single accident with a blank description is read as the fallback. */
  lemma BlankDescriptionExample(a: AccidentWithDistance)
    requires a.accident.description == "\U{3000} "
    ensures BuildVoiceMessageForMultiple([a]) == "過去に事故が発生しています。ご注意ください。"
  {
    assert AllWhitespace(a.accident.description);
  }
}
