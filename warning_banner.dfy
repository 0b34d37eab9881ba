/** The dismissible warning banner over the nearby list. */
module WarningBanner {
  import opened Wrappers
  import opened Text
  import opened Accidents

  const OthersHead := "（他"
  const OthersTail := "件）"

  /** "（他{n-1}件）" ("(and {n-1} more)") for more than one entry, else nothing. */
  function OthersSuffix(n: nat): (r: string)
    ensures r == "" <==> n <= 1
  {
    if n > 1 then OthersHead + NatToString(n - 1) + OthersTail else ""
  }

  /** The number in the suffix is the count of entries other than the nearest. */
  lemma OthersSuffixCount(n: nat)
    requires n > 1
    ensures var r, digits := OthersSuffix(n), NatToString(n - 1);
      && |r| >= |OthersHead| + |digits|
      && DecimalValue(r[|OthersHead|..|OthersHead| + |digits|]) + 1 == n
  {
    DigitsReadBack(OthersHead, n - 1, OthersTail);
  }

  /** The banner's message: nothing when dismissed or when there is nothing
      nearby, otherwise the distance of the first (nearest) entry and the
      count of the others. */
  function BannerMessage(dismissed: bool, nearby: seq<AccidentWithDistance>): (r: Option<string>)
    ensures r.None? <==> dismissed || nearby == []
    ensures r.Some? ==> StartsWith(r.value, "約" + IntToString(Round(nearby[0].distanceMeters)) + "m先に")
    ensures r.Some? ==> EndsWith(r.value, OthersSuffix(|nearby|))
  {
    if dismissed || |nearby| == 0 then None
    else
      var head := "約" + IntToString(Round(nearby[0].distanceMeters)) + "m先に";
      var r := head + "事故履歴があります" + OthersSuffix(|nearby|);
      assert r == head + ("事故履歴があります" + OthersSuffix(|nearby|));
      Some(r)
  }

  class Banner {
    var dismissed: bool

    constructor ()
      ensures !dismissed
    {
      dismissed := false;
    }

    /** The banner as rendered for the current list. */
    function Render(nearby: seq<AccidentWithDistance>): (r: Option<string>)
      reads this
      ensures r.None? <==> dismissed || nearby == []
    {
      BannerMessage(dismissed, nearby)
    }

    /** The close button: the flag only ever becomes true. */
    method Close()
      modifies this
      ensures dismissed
    {
      dismissed := true;
    }
  }

  /** After a close the banner stays hidden whatever the list becomes. */
  lemma ClosedStaysHidden(b: Banner, nearby: seq<AccidentWithDistance>)
    requires b.dismissed
    ensures b.Render(nearby) == None
  {
  }
}
