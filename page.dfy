/**
 * The page the edge worker serves (`createResponse`): a fixed HTML
 * document whose body holds an advertisement block only when the
 * `enable-ads` flag is on.
 *
 * The template text is written as lists of short fragments, in order, that
 * join to exactly the characters of the template; facts about the characters
 * of the page are established fragment by fragment and carried over to the
 * joins by the lemmas of module Strings.
 */
module Page {
  import opened Strings

  /** Document start, up to the opening of the style sheet. */
  const Opening: seq<string> := [
    "\n",
    "    <!DOCTYPE html>\n",
    "    <html>\n",
    "    <head>\n",
    "      <title>EdgeWorker ",
    "Demo</title>\n",
    "      <style>\n"
  ]

  /** The style rule for `body`. */
  const BodyRule: seq<string> := [
    "        body { ",
    "font-family: Arial, ",
    "sans-serif; margin: ",
    "40px; background: ",
    "#f5f5f5; }\n"
  ]

  /** The style rule for `.container`. */
  const ContainerRule: seq<string> := [
    "        .container { ",
    "max-width: 600px; ",
    "margin: 0 auto; ",
    "background: white; ",
    "padding: 30px; ",
    "border-radius: 8px; }\n"
  ]

  /** The style rule for `h1`, and the end of the document head. */
  const HeadingRule: seq<string> := [
    "        h1 { color: ",
    "#333; }\n",
    "      </style>\n",
    "    </head>\n"
  ]

  const Greeting: string := "Hello from EdgeWorker!"

  /** The start of the body, up to the end of its heading. */
  const Heading: seq<string> := [
    "    <body>\n",
    "      <div ",
    "class=\"container\">\n",
    "        <h1>",
    Greeting,
    "</h1>\n"
  ]

  /** The paragraph before the slot of the advertisement block. */
  const Intro: seq<string> := [
    "        <p>This content ",
    "is dynamically ",
    "generated at the edge ",
    "using LaunchDarkly ",
    "feature flags.</p>\n",
    "        "
  ]

  /** The template after the slot of the advertisement block. */
  const Closing: seq<string> := [
    "\n",
    "        <p><small>Powered ",
    "by Akamai EdgeWorkers + ",
    "LaunchDarkly</small></p>\n",
    "      </div>\n",
    "    </body>\n",
    "    </html>\n",
    "  "
  ]

  const AdLabel: string := "Advertisement"

  /** The advertisement block, a single line of markup. */
  const AdFragments: seq<string> := [
    "<div style=\"background: ",
    "#fffacd; padding: 10px; ",
    "margin: 10px 0; border: ",
    "1px dashed #ddd;\">\U{1F4E2} ",
    AdLabel,
    ": Special Offer ",
    "Available!</div>"
  ]

  const DocumentHead: seq<string> := Opening + BodyRule + ContainerRule + HeadingRule
  const BodyStart: seq<string> := Heading + Intro
  const PrefixFragments: seq<string> := DocumentHead + BodyStart

  /** The template text before the slot of the advertisement block. */
  const PagePrefix: string := Concat(PrefixFragments)

  /** The template text after the slot of the advertisement block. */
  const PageSuffix: string := Concat(Closing)

  const AdBlock: string := Concat(AdFragments)

  /**
   * `createResponse(showAds)`: the template with the ad block in its slot, or
   * the slot left empty. The page always starts with the template's prefix
   * and ends with its suffix; what lies between them is the ad block exactly
   * when `showAds`, and nothing otherwise.
   */
  function CreateResponse(showAds: bool): (r: string)
    ensures |r| == |PagePrefix| + (if showAds then |AdBlock| else 0) + |PageSuffix|
    ensures r[..|PagePrefix|] == PagePrefix
    ensures r[|r| - |PageSuffix|..] == PageSuffix
    ensures showAds ==> r[|PagePrefix|..|r| - |PageSuffix|] == AdBlock
    ensures !showAds ==> |PagePrefix| == |r| - |PageSuffix|
  {
    var adContent := if showAds then AdBlock else "";
    Framed(PagePrefix, adContent, PageSuffix);
    PagePrefix + adContent + PageSuffix
  }

  // No fragment of the template holds `A` followed by `d`, the start of
  // `Advertisement`; each list is checked fragment by fragment.

  lemma OpeningAvoidsAd()
    ensures forall c | c in Opening :: AvoidsPair(c, 'A', 'd')
  {
    assert AvoidsPair(Opening[0], 'A', 'd');
    assert AvoidsPair(Opening[1], 'A', 'd');
    assert AvoidsPair(Opening[2], 'A', 'd');
    assert AvoidsPair(Opening[3], 'A', 'd');
    assert AvoidsPair(Opening[4], 'A', 'd');
    assert AvoidsPair(Opening[5], 'A', 'd');
    assert AvoidsPair(Opening[6], 'A', 'd');
  }

  lemma BodyRuleAvoidsAd()
    ensures forall c | c in BodyRule :: AvoidsPair(c, 'A', 'd')
  {
    assert AvoidsPair(BodyRule[0], 'A', 'd');
    assert AvoidsPair(BodyRule[1], 'A', 'd');
    assert AvoidsPair(BodyRule[2], 'A', 'd');
    assert AvoidsPair(BodyRule[3], 'A', 'd');
    assert AvoidsPair(BodyRule[4], 'A', 'd');
  }

  lemma ContainerRuleAvoidsAd()
    ensures forall c | c in ContainerRule :: AvoidsPair(c, 'A', 'd')
  {
    assert AvoidsPair(ContainerRule[0], 'A', 'd');
    assert AvoidsPair(ContainerRule[1], 'A', 'd');
    assert AvoidsPair(ContainerRule[2], 'A', 'd');
    assert AvoidsPair(ContainerRule[3], 'A', 'd');
    assert AvoidsPair(ContainerRule[4], 'A', 'd');
    assert AvoidsPair(ContainerRule[5], 'A', 'd');
  }

  lemma HeadingRuleAvoidsAd()
    ensures forall c | c in HeadingRule :: AvoidsPair(c, 'A', 'd')
  {
    assert AvoidsPair(HeadingRule[0], 'A', 'd');
    assert AvoidsPair(HeadingRule[1], 'A', 'd');
    assert AvoidsPair(HeadingRule[2], 'A', 'd');
    assert AvoidsPair(HeadingRule[3], 'A', 'd');
  }

  lemma HeadingAvoidsAd()
    ensures forall c | c in Heading :: AvoidsPair(c, 'A', 'd')
  {
    assert AvoidsPair(Heading[0], 'A', 'd');
    assert AvoidsPair(Heading[1], 'A', 'd');
    assert AvoidsPair(Heading[2], 'A', 'd');
    assert AvoidsPair(Heading[3], 'A', 'd');
    assert AvoidsPair(Heading[4], 'A', 'd');
    assert AvoidsPair(Heading[5], 'A', 'd');
  }

  lemma IntroAvoidsAd()
    ensures forall c | c in Intro :: AvoidsPair(c, 'A', 'd')
  {
    assert AvoidsPair(Intro[0], 'A', 'd');
    assert AvoidsPair(Intro[1], 'A', 'd');
    assert AvoidsPair(Intro[2], 'A', 'd');
    assert AvoidsPair(Intro[3], 'A', 'd');
    assert AvoidsPair(Intro[4], 'A', 'd');
    assert AvoidsPair(Intro[5], 'A', 'd');
  }

  lemma ClosingAvoidsAd()
    ensures forall c | c in Closing :: AvoidsPair(c, 'A', 'd')
  {
    assert AvoidsPair(Closing[0], 'A', 'd');
    assert AvoidsPair(Closing[1], 'A', 'd');
    assert AvoidsPair(Closing[2], 'A', 'd');
    assert AvoidsPair(Closing[3], 'A', 'd');
    assert AvoidsPair(Closing[4], 'A', 'd');
    assert AvoidsPair(Closing[5], 'A', 'd');
    assert AvoidsPair(Closing[6], 'A', 'd');
    assert AvoidsPair(Closing[7], 'A', 'd');
  }

  /** The template text around the slot holds no `A` followed by `d`. */
  lemma TemplateAvoidsAd()
    ensures AvoidsPair(PagePrefix, 'A', 'd') && AvoidsPair(PageSuffix, 'A', 'd')
  {
    OpeningAvoidsAd();
    BodyRuleAvoidsAd();
    ContainerRuleAvoidsAd();
    HeadingRuleAvoidsAd();
    HeadingAvoidsAd();
    IntroAvoidsAd();
    ClosingAvoidsAd();
    AvoidsPairConcat(PrefixFragments, 'A', 'd');
    AvoidsPairConcat(Closing, 'A', 'd');
  }

  /** The page rendered with the flag on carries the advertisement. */
  lemma AdPageAdvertises()
    ensures Contains(CreateResponse(true), AdLabel)
  {
    ContainsPiece(AdFragments, 4);
    ContainsAppend(PagePrefix, AdBlock, AdLabel);
    ContainsAppend(PagePrefix + AdBlock, PageSuffix, AdLabel);
  }

  /** The page rendered with the flag off has no advertisement anywhere. */
  lemma PlainPageHasNoAd()
    ensures !Contains(CreateResponse(false), AdLabel)
  {
    TemplateAvoidsAd();
    assert AdLabel[0] == 'A' && AdLabel[1] == 'd';
    AvoidsPairExcludesJoin(PagePrefix, PageSuffix, AdLabel);
    EmptyMiddle(PagePrefix, PageSuffix);
  }

  /** Only the page rendered with the flag on carries the advertisement. */
  lemma AdvertisementIffShowAds(showAds: bool)
    ensures Contains(CreateResponse(showAds), AdLabel) <==> showAds
  {
    if showAds {
      AdPageAdvertises();
    } else {
      PlainPageHasNoAd();
    }
  }

  /** Both variants of the page greet the visitor. */
  lemma GreetingAlwaysShown(showAds: bool)
    ensures Contains(CreateResponse(showAds), Greeting)
  {
    ContainsPiece(Heading, 4);
    ConcatAppend(Heading, Intro);
    ContainsAppend(Concat(Heading), Concat(Intro), Greeting);
    ConcatAppend(DocumentHead, BodyStart);
    ContainsAppend(Concat(DocumentHead), Concat(BodyStart), Greeting);
    var adContent := if showAds then AdBlock else "";
    ContainsAppend(PagePrefix, adContent, Greeting);
    ContainsAppend(PagePrefix + adContent, PageSuffix, Greeting);
  }

  /**
   * The page with ads is the page without ads with the ad block inserted
   * right after the template's prefix: nothing else differs.
   */
  lemma AdBlockSplicedIn()
    ensures CreateResponse(false)[..|PagePrefix|] == PagePrefix
    ensures CreateResponse(true) == CreateResponse(false)[..|PagePrefix|] + AdBlock + CreateResponse(false)[|PagePrefix|..]
    ensures |CreateResponse(true)| == |CreateResponse(false)| + |AdBlock|
  {
    EmptyMiddle(PagePrefix, PageSuffix);
    SplitAt(PagePrefix, PageSuffix);
  }
}
