/**
 * `src/pages/Services.tsx`: the services on offer, the schema.org `ItemList`
 * the page publishes for them, the overview's shortened detail list and the
 * side each card slides in from.
 *
 * Icons, the markup and the animation itself (timing, easing, the scroll
 * trigger) are left out; only the animation's starting offsets are modelled.
 */
module Services {
  import opened Base

  datatype Service = Service(title: string, description: string, details: seq<string>)

  /** `services`, in page order. */
  const ServiceList: seq<Service> := [
    Service("Social Media Management",
      "Comprehensive social media management services to build and enhance your brand presence across various platforms.",
      [
      "Strategic content planning tailored to your brand voice and audience preferences",
      "Creative post design using tools like Canva and Adobe Illustrator",
      "Targeted hashtag research to maximize content visibility",
      "Active community engagement and reputation management",
      "Regular performance analysis and strategy refinement",
      "Platform-specific optimization for Facebook, Instagram, LinkedIn, and Twitter"
      ]),
    Service("Paid Advertising",
      "Data-driven paid advertising campaigns on multiple platforms to maximize your ROI and reach your target audience.",
      [
      "Strategic campaign setup aligned with your business objectives",
      "Precise audience targeting based on demographics, interests, and behaviors",
      "Compelling ad copywriting and creative design that drives conversions",
      "Budget allocation and optimization for maximum return on investment",
      "A/B testing to refine ad performance and campaign effectiveness",
      "Comprehensive performance reporting and ROI analysis"
      ]),
    Service("SEO Services",
      "Comprehensive SEO strategies to improve your website's search engine rankings and drive organic traffic.",
      [
      "Thorough website audits to identify technical issues and opportunities",
      "On-page optimization for improved search engine visibility",
      "In-depth keyword research using tools like Ahrefs and Google Search Console",
      "Strategic content creation and optimization for targeted keywords",
      "Backlink building strategies to enhance domain authority",
      "Regular performance monitoring and strategy adjustment"
      ]),
    Service("Content Marketing",
      "Engaging content creation and distribution strategies that build brand authority and engage your target audience.",
      [
      "Strategic content planning aligned with your business objectives",
      "Creating valuable, relevant content for your target audience",
      "Blog writing, email newsletters, and social media content",
      "Visual content creation including infographics and videos",
      "Content optimization for search engines and social sharing",
      "Content performance analysis and strategy refinement"
      ]),
    Service("Analytics & Reporting",
      "Comprehensive data analysis and reporting to track performance and optimize your marketing strategies.",
      [
      "Setting up tracking and measurement tools for accurate data collection",
      "Regular performance reports with actionable insights",
      "Analysis of key performance indicators (KPIs) relevant to your goals",
      "Competitive analysis and benchmarking",
      "Identifying trends and opportunities for improvement",
      "Data-driven recommendations for strategy refinement"
      ]),
    Service("Email Marketing",
      "Effective email marketing campaigns to nurture leads, build relationships, and drive conversions.",
      [
      "Strategic email campaign planning and implementation",
      "Engaging email content creation and design",
      "Audience segmentation for targeted messaging",
      "A/B testing to optimize open rates and click-through rates",
      "Automated email sequences for lead nurturing",
      "Performance analysis and campaign optimization"
      ])
  ]

  // ---------------------------------------------------------------------------
  // The structured data

  /** An element of `itemListElement`: a `ListItem` wrapping a `Service`. */
  datatype ListItem = ListItem(position: nat, name: string, description: string)

  /** `services.map((service, index) => ...)`. */
  function ItemList(services: seq<Service>): (items: seq<ListItem>)
    ensures |items| == |services|
  {
    seq(|services|, i requires 0 <= i < |services| =>
      ListItem(i + 1, services[i].title, services[i].description))
  }

  /** Item `i` describes service `i`: its name and description are the
      service's title and description. */
  lemma ItemsFollowServices(services: seq<Service>)
    ensures forall i :: 0 <= i < |services| ==>
      ItemList(services)[i].name == services[i].title &&
      ItemList(services)[i].description == services[i].description
  {
  }

  /** The positions run 1, 2, ..., n without gaps. */
  lemma PositionsConsecutive(services: seq<Service>)
    ensures services != [] ==> ItemList(services)[0].position == 1
    ensures services != [] ==> ItemList(services)[|services| - 1].position == |services|
    ensures forall i :: 0 <= i < |services| - 1 ==>
      ItemList(services)[i + 1].position == ItemList(services)[i].position + 1
  {
  }

  /** The items of a list with every position moved up by `k`. */
  function Shifted(items: seq<ListItem>, k: nat): (r: seq<ListItem>)
    ensures |r| == |items|
  {
    seq(|items|, i requires 0 <= i < |items| =>
      ListItem(items[i].position + k, items[i].name, items[i].description))
  }

  /** The list of two runs of services is the first run's list followed by
      the second's, numbered on from where the first stops: the map keeps
      the services' order. */
  lemma ItemListConcat(a: seq<Service>, b: seq<Service>)
    ensures ItemList(a + b) == ItemList(a) + Shifted(ItemList(b), |a|)
  {
    var l, r := ItemList(a + b), ItemList(a) + Shifted(ItemList(b), |a|);
    forall i | 0 <= i < |l|
      ensures l[i] == r[i]
    {
      if i >= |a| {
        assert (a + b)[i] == b[i - |a|];
      }
    }
  }

  /** The six services give six items, numbered 1 to 6. */
  lemma PublishedList()
    ensures |ItemList(ServiceList)| == 6
    ensures forall i :: 0 <= i < 6 ==> ItemList(ServiceList)[i].position == i + 1
    ensures ItemList(ServiceList)[0].name == "Social Media Management"
  {
  }

  // ---------------------------------------------------------------------------
  // The detail lists

  /** `service.details.slice(0, 3)`: the overview card's bullet points. As in
      JavaScript, a shorter list is taken whole. */
  function Overview(details: seq<string>): (r: seq<string>)
    ensures |r| == Min(3, |details|)
    ensures r == details[..|r|]
  {
    details[..Min(3, |details|)]
  }

  /** The overview followed by what it leaves out is the detail section's
      full list, and the overview leaves something out only when there are
      more than three details. */
  lemma OverviewThenRest(details: seq<string>)
    ensures Overview(details) + details[|Overview(details)|..] == details
    ensures Overview(details) == details <==> |details| <= 3
  {
    var o := Overview(details);
    assert o + details[|o|..] == details;
  }

  /** Every service lists six details: the overview shows the first three and
      the detail section all six. */
  lemma EveryServiceHasSixDetails()
    ensures forall i :: 0 <= i < |ServiceList| ==>
      |ServiceList[i].details| == 6 && |Overview(ServiceList[i].details)| == 3
  {
  }

  // ---------------------------------------------------------------------------
  // The cards' starting offsets

  /** Where a card starts before sliding into place: `x` in pixels and
      `rotateY` in degrees. */
  datatype Offset = Offset(x: int, rotateY: int)

  /** The `fromTo` start values for the card at `index`. */
  function StartOffset(index: nat): Offset {
    if index % 2 == 0 then Offset(-80, -15) else Offset(80, 15)
  }

  function Mirrored(o: Offset): Offset {
    Offset(-o.x, -o.rotateY)
  }

  /** The first card comes from the left; each card comes from the side
      opposite its predecessor's, turned the other way, so the pattern
      repeats every two cards. */
  lemma OffsetsAlternate(index: nat)
    ensures StartOffset(0).x < 0
    ensures StartOffset(index + 1) == Mirrored(StartOffset(index))
    ensures StartOffset(index + 2) == StartOffset(index)
  {
  }

  /** A card turns towards the side it comes from and travels the same
      distance whatever its index. */
  lemma OffsetSidesAgree(index: nat)
    ensures (StartOffset(index).x < 0) <==> (StartOffset(index).rotateY < 0)
    ensures StartOffset(index).x == -80 || StartOffset(index).x == 80
    ensures StartOffset(index).x < 0 <==> index % 2 == 0
  {
  }
}
