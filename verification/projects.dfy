/**
 * The "Featured Projects" floating grid: six cards placed by a golden-angle
 * rule, one shared `hoveredId`, and a per-card animation target derived from
 * that field. The hovered card grows, lifts and comes to the front; every other
 * card is blurred and faded; the hovered card's brand, title and tags fade in
 * with staggered delays and its description is rendered.
 */
module Projects {
  import opened Wrappers
  import opened FocusField
  import opened TweenMath

  datatype Project = Project(id: string, title: string, brand: string, description: string, tags: seq<string>)

  /** The six projects, in display order (image URLs omitted). */
  const Catalogue: seq<Project> := [
    Project("project-1", "Design System", "TechFlow",
            "Comprehensive design system for web applications with 200+ components.",
            ["Design", "Components", "Frontend"]),
    Project("project-2", "Mobile App", "MoveFit",
            "Fitness tracking app with AI-powered workout recommendations.",
            ["Mobile", "AI", "UX"]),
    Project("project-3", "Brand Identity", "LuminaStudio",
            "Complete brand identity including logo, colors, and guidelines.",
            ["Branding", "Identity", "Strategy"]),
    Project("project-4", "E-Commerce Platform", "ShopHub",
            "Full-stack e-commerce solution with payment integration.",
            ["Backend", "Fullstack", "Commerce"]),
    Project("project-5", "Data Visualization", "InsightDash",
            "Interactive dashboard for real-time data visualization.",
            ["Data", "Dashboard", "Analytics"]),
    Project("project-6", "Social Network", "ConnectHub",
            "Social platform with real-time messaging and notifications.",
            ["Social", "Backend", "Realtime"])
  ]

  function Ids(projects: seq<Project>): seq<string> {
    IdsOf(projects, (p: Project) => p.id)
  }

  /** The catalogue's ids are pairwise distinct and none is the empty string. */
  lemma CatalogueIdsWellFormed()
    ensures Distinct(Ids(Catalogue))
    ensures forall i :: 0 <= i < |Catalogue| ==> Catalogue[i].id != ""
  {
    var ids := Ids(Catalogue);
    forall i, j | 0 <= i < j < |ids| ensures ids[i] != ids[j] {
      assert ids[i][8] != ids[j][8];
    }
  }

  /**
   * JavaScript truthiness of the hovered id, as tested by `hoveredId && ...`:
   * `null` and the empty string are both false.
   */
  predicate Truthy(hovered: Option<string>) {
    hovered.Some? && hovered.value != ""
  }

  /** A card position in percent of the container. */
  datatype Position = Position(x: real, y: real)

  /** Golden-angle placement of the card at `index`: `(index * 137.508) % 100`, `(index * 218.971) % 100`. */
  function ProjectPosition(index: nat): (p: Position)
    ensures 0.0 <= p.x < 100.0 && 0.0 <= p.y < 100.0
  {
    Position(JsRemainder(index as real * 137.508, 100.0), JsRemainder(index as real * 218.971, 100.0))
  }

  /** For card indices the placement is the floored remainder `v - 100 * floor(v / 100)`. */
  lemma ProjectPositionIsFloorMod(index: nat)
    ensures var vx := index as real * 137.508;
            ProjectPosition(index).x == vx - 100.0 * (vx / 100.0).Floor as real
    ensures var vy := index as real * 218.971;
            ProjectPosition(index).y == vy - 100.0 * (vy / 100.0).Floor as real
  {
    JsRemainderIsFloorModOnNonNegatives(index as real * 137.508, 100.0);
    JsRemainderIsFloorModOnNonNegatives(index as real * 218.971, 100.0);
  }

  /**
   * Derived visual state of a card: the animated scale, filter and lift, the
   * static z-order, and the image zoom, shade and border of its children.
   */
  datatype CardTarget = CardTarget(
    scale: real,
    blur: real,
    opacity: real,
    y: real,
    zIndex: int,
    imageScale: real,
    shadeAlpha: real,
    borderOpacity: real)

  /** The target of a card when nothing is hovered. */
  const Rest: CardTarget := CardTarget(1.0, 0.0, 1.0, 0.0, 10, 1.0, 0.0, 0.0)

  /** The target of the hovered card: enlarged, lifted, in front, zoomed, shaded and bordered. */
  const Raised: CardTarget := CardTarget(1.1, 0.0, 1.0, -20.0, 50, 1.08, 0.6, 1.0)

  /** The target of the card `id` under `hovered`. */
  function CardTargetFor(hovered: Option<string>, id: string): (t: CardTarget)
    ensures t.scale > 1.0 <==> IsHovered(hovered, id)
    ensures t.y < 0.0 <==> IsHovered(hovered, id)
    ensures t.zIndex > Rest.zIndex <==> IsHovered(hovered, id)
    ensures t.blur > 0.0 <==> Truthy(hovered) && !IsHovered(hovered, id)
    ensures t.blur > 0.0 <==> t.opacity < 1.0
    ensures !(t.scale > 1.0 && t.blur > 0.0)
    ensures t.imageScale > 1.0 <==> IsHovered(hovered, id)
    ensures t.shadeAlpha > 0.0 <==> IsHovered(hovered, id)
    ensures t.borderOpacity > 0.0 <==> IsHovered(hovered, id)
    ensures hovered == None ==> t == Rest
    ensures IsHovered(hovered, id) ==> t == Raised
    ensures !IsHovered(hovered, id) ==> t == Rest.(blur := t.blur, opacity := t.opacity)
    ensures t.blur > 0.0 ==> t.blur == 8.0 && t.opacity == 0.4
    ensures t.blur == 0.0 ==> t.opacity == 1.0
    ensures t.blur <= 0.0 ==> t.blur == 0.0 && t.opacity == 1.0
  {
    var isHovered := IsHovered(hovered, id);
    var dimmed := Truthy(hovered) && !isHovered;
    CardTarget(
      if isHovered then 1.1 else 1.0,
      if dimmed then 8.0 else 0.0,
      if dimmed then 0.4 else 1.0,
      if isHovered then -20.0 else 0.0,
      if isHovered then 50 else 10,
      if isHovered then 1.08 else 1.0,
      if isHovered then 0.6 else 0.0,
      if isHovered then 1.0 else 0.0)
  }

  /**
   * For ids that are not the empty string, a card is dimmed (blur 8, opacity
   * 0.4) exactly when another card is hovered, and focused (scale 1.1, lifted
   * 20, z 50) exactly when it is hovered itself.
   */
  lemma DimmedIffOtherHovered(hovered: Option<string>, id: string)
    requires hovered == None || hovered.value != ""
    ensures var t := CardTargetFor(hovered, id);
            (t.blur == 8.0 && t.opacity == 0.4) <==> IsBlurred(hovered, id)
    ensures var t := CardTargetFor(hovered, id);
            (t.scale == 1.1 && t.y == -20.0 && t.zIndex == 50) <==> IsHovered(hovered, id)
    ensures var t := CardTargetFor(hovered, id);
            !IsBlurred(hovered, id) ==> t.blur == 0.0 && t.opacity == 1.0
  {
  }

  /** The three labels that fade in on hover, in document order. */
  datatype Part = Brand | Title | Tags

  function Order(p: Part): nat {
    match p
    case Brand => 0
    case Title => 1
    case Tags => 2
  }

  /** Animation target of a label (eased over 0.3 s after its delay). */
  datatype Reveal = Reveal(opacity: real, y: real, delay: real)

  function RevealFor(p: Part, isHovered: bool): (r: Reveal)
    ensures (r.opacity == 1.0 && r.y == 0.0) <==> isHovered
    ensures !isHovered ==> r.opacity == 0.0 && r.y == 10.0
    ensures 0.0 < r.delay <= 0.25
    ensures p == Brand ==> r.delay == 0.1
    ensures p == Title ==> r.delay == 0.15
    ensures p == Tags ==> r.delay == 0.25
  {
    var delay := match p
      case Brand => 0.1
      case Title => 0.15
      case Tags => 0.25;
    if isHovered then Reveal(1.0, 0.0, delay) else Reveal(0.0, 10.0, delay)
  }

  /** Labels are staggered in document order, and the delay does not depend on the direction. */
  lemma RevealStaggered(p: Part, q: Part, h1: bool, h2: bool)
    requires Order(p) < Order(q)
    ensures RevealFor(p, h1).delay < RevealFor(q, h2).delay
    ensures RevealFor(p, h1).delay == RevealFor(p, h2).delay
  {
  }

  /** Everything the grid derives for one card. */
  datatype CardView = CardView(
    id: string,
    position: Position,
    target: CardTarget,
    brand: Reveal,
    title: Reveal,
    tags: Reveal,
    showsDescription: bool)

  function CardViewFor(hovered: Option<string>, p: Project, index: nat): (v: CardView)
    ensures v.showsDescription <==> IsHovered(hovered, p.id)
    ensures v.position == ProjectPosition(index)
    ensures v.target == CardTargetFor(hovered, p.id)
    ensures v.brand == RevealFor(Brand, IsHovered(hovered, p.id))
    ensures v.title == RevealFor(Title, IsHovered(hovered, p.id))
    ensures v.tags == RevealFor(Tags, IsHovered(hovered, p.id))
    ensures v.brand.opacity == 1.0 && v.title.opacity == 1.0 && v.tags.opacity == 1.0 <==> IsHovered(hovered, p.id)
    ensures v.brand.delay < v.title.delay < v.tags.delay
  {
    var isHovered := IsHovered(hovered, p.id);
    CardView(p.id, ProjectPosition(index), CardTargetFor(hovered, p.id),
             RevealFor(Brand, isHovered), RevealFor(Title, isHovered), RevealFor(Tags, isHovered),
             isHovered)
  }

  /** The grid: the blur overlay (present while something truthy is hovered) and every card. */
  datatype SectionView = SectionView(overlay: bool, cards: seq<CardView>)

  function Render(hovered: Option<string>, projects: seq<Project>): (v: SectionView)
    ensures v.overlay <==> Truthy(hovered)
    ensures |v.cards| == |projects|
    ensures forall i :: 0 <= i < |projects| ==> v.cards[i] == CardViewFor(hovered, projects[i], i)
  {
    SectionView(Truthy(hovered), seq(|projects|, i requires 0 <= i < |projects| => CardViewFor(hovered, projects[i], i)))
  }

  /** With nothing hovered there is no overlay and every card is at rest with its labels hidden. */
  lemma IdleGridAtRest(projects: seq<Project>)
    ensures !Render(None, projects).overlay
    ensures forall i :: 0 <= i < |projects| ==>
              var c := Render(None, projects).cards[i];
              c.target == Rest && !c.showsDescription && c.brand.opacity == 0.0 &&
              c.title.opacity == 0.0 && c.tags.opacity == 0.0
  {
  }

  /**
   * Hovering the catalogue card `k`: the overlay is shown, card `k` is the only
   * focused card and shows its description, and every other card is dimmed.
   */
  lemma HoveringOneCardDimsTheRest(k: nat)
    requires k < |Catalogue|
    ensures var v := Render(Some(Catalogue[k].id), Catalogue);
            && v.overlay
            && v.cards[k].showsDescription
            && v.cards[k].target.scale == 1.1
            && forall i :: 0 <= i < |Catalogue| && i != k ==>
                 !v.cards[i].showsDescription && v.cards[i].target.blur == 8.0 && v.cards[i].target.opacity == 0.4
  {
    CatalogueIdsWellFormed();
    var ids := Ids(Catalogue);
    forall i | 0 <= i < |Catalogue| && i != k
      ensures Catalogue[i].id != Catalogue[k].id
    {
      if i < k { assert ids[i] != ids[k]; } else { assert ids[k] != ids[i]; }
    }
  }

  /** Whatever the hovered id, at most one catalogue card is focused. */
  lemma AtMostOneCardFocused(hovered: Option<string>)
    ensures CountHovered(hovered, Ids(Catalogue)) <= 1
    ensures forall i, j :: 0 <= i < j < |Catalogue| ==>
              !(Render(hovered, Catalogue).cards[i].showsDescription && Render(hovered, Catalogue).cards[j].showsDescription)
  {
    CatalogueIdsWellFormed();
    AtMostOneHovered(hovered, Ids(Catalogue));
  }

  /**
   * Pointer events on cards with non-empty ids only ever leave the grid idle or
   * focused on one of those cards, so there the truthy test and the `!== null`
   * test agree.
   */
  lemma EventsKeepHoverOnCards(ids: seq<string>, events: seq<HoverEvent<string>>)
    requires forall i :: 0 <= i < |ids| ==> ids[i] != ""
    requires forall i :: 0 <= i < |events| && events[i].Enter? ==> events[i].id in ids
    ensures var h := Run(None, events);
            h == None || (h.value in ids && Truthy(h))
  {
    HoveredWasEntered(None, events);
    var h := Run(None, events);
    if h.Some? {
      var i :| 0 <= i < |events| && events[i] == Enter(h.value);
      assert h.value in ids;
    }
  }
}
