/**
 * The "Selected Works" variant of the focus field: four works at fixed
 * positions share one numeric `hoveredId`; the hovered work comes to the front
 * and shows its title and category, every other work is blurred, greyed, faded
 * and shrunk. While the pointer moves over a work its image is pulled towards
 * the pointer by a fifth of the pointer's offset from the work's centre, and it
 * returns to rest when the pointer leaves.
 */
module SelectedWorks {
  import opened Wrappers
  import opened FocusField

  /** A work and its fixed layout: left, top in percent, width in viewport widths. */
  datatype Work = Work(id: int, title: string, category: string, x: real, y: real, w: real)

  const Works: seq<Work> := [
    Work(1, "Rio Life", "Branding", 10.0, 10.0, 25.0),
    Work(2, "Eholo Tech", "Web Design", 60.0, 15.0, 20.0),
    Work(3, "Par-Dos", "Art Direction", 20.0, 50.0, 30.0),
    Work(4, "Mindless", "Development", 65.0, 60.0, 22.0)
  ]

  function WorkIds(works: seq<Work>): seq<int> {
    IdsOf(works, (w: Work) => w.id)
  }

  /** A point or offset in pixels. */
  datatype Vec = Vec(x: real, y: real)

  const Zero: Vec := Vec(0.0, 0.0)

  /** A bounding rectangle in client coordinates. */
  datatype Rect = Rect(left: real, top: real, width: real, height: real)

  function Centre(r: Rect): Vec {
    Vec(r.left + r.width / 2.0, r.top + r.height / 2.0)
  }

  /** Fraction of the pointer's offset from the centre that the image follows. */
  const FollowFactor: real := 0.2

  /** The image offset targeted when the pointer is at `pointer` over a work occupying `rect`. */
  function FollowOffset(pointer: Vec, rect: Rect): (v: Vec)
    ensures pointer == Centre(rect) ==> v == Zero
    ensures v.x > 0.0 <==> pointer.x > Centre(rect).x
    ensures v.x < 0.0 <==> pointer.x < Centre(rect).x
    ensures v.y > 0.0 <==> pointer.y > Centre(rect).y
    ensures v.y < 0.0 <==> pointer.y < Centre(rect).y
  {
    Vec((pointer.x - (rect.left + rect.width / 2.0)) * FollowFactor,
        (pointer.y - (rect.top + rect.height / 2.0)) * FollowFactor)
  }

  /** The pointer position that produces a given image offset over `rect`. */
  function PointerFor(offset: Vec, rect: Rect): Vec {
    Vec(Centre(rect).x + offset.x / FollowFactor, Centre(rect).y + offset.y / FollowFactor)
  }

  /** The offset loses nothing: the pointer can be read back from it. */
  lemma FollowOffsetRoundTrip(pointer: Vec, rect: Rect)
    ensures PointerFor(FollowOffset(pointer, rect), rect) == pointer
  {
  }

  /**
   * The offset is linear in the displacement from the centre: moving the pointer
   * by (dx, dy) moves the image target by a fifth of that, wherever the work is.
   */
  lemma FollowOffsetLinear(p: Vec, q: Vec, rect: Rect)
    ensures FollowOffset(p, rect).x - FollowOffset(q, rect).x == FollowFactor * (p.x - q.x)
    ensures FollowOffset(p, rect).y - FollowOffset(q, rect).y == FollowFactor * (p.y - q.y)
  {
  }

  /** The shared hovered id and each work's current image target, by work id. */
  datatype WorksState = WorksState(hovered: Option<int>, imageTargets: map<int, Vec>)

  /** Nothing hovered and no image moved. */
  const Initial: WorksState := WorksState(None, map[])

  /** The image target of the work `id`; an image never moved rests at the origin. */
  function ImageTarget(s: WorksState, id: int): Vec {
    if id in s.imageTargets then s.imageTargets[id] else Zero
  }

  /** Pointer events delivered to the work `id`. */
  datatype WorksEvent =
    | EnterWork(id: int)
    | MoveOver(id: int, pointer: Vec, rect: Rect)
    | LeaveWork(id: int)

  /** The effect of one event on the section. */
  function Handle(s: WorksState, e: WorksEvent): (s': WorksState)
    ensures e.EnterWork? ==> s'.hovered == Some(e.id) && s'.imageTargets == s.imageTargets
    ensures e.MoveOver? ==> s'.hovered == s.hovered && ImageTarget(s', e.id) == FollowOffset(e.pointer, e.rect)
    ensures e.LeaveWork? ==> s'.hovered == None && ImageTarget(s', e.id) == Zero
    ensures forall other :: other != e.id ==> ImageTarget(s', other) == ImageTarget(s, other)
  {
    match e
    case EnterWork(id) => s.(hovered := Step(s.hovered, Enter(id)))
    case MoveOver(id, pointer, rect) => s.(imageTargets := s.imageTargets[id := FollowOffset(pointer, rect)])
    case LeaveWork(id) => WorksState(Step(s.hovered, Leave), s.imageTargets[id := Zero])
  }

  function HandleAll(s: WorksState, events: seq<WorksEvent>): WorksState
    decreases |events|
  {
    if |events| == 0 then s else HandleAll(Handle(s, events[0]), events[1..])
  }

  /** The hover events among a sequence of pointer events; moves carry none. */
  function HoverEvents(events: seq<WorksEvent>): seq<HoverEvent<int>>
    decreases |events|
  {
    if |events| == 0 then []
    else
      var rest := HoverEvents(events[1..]);
      match events[0]
      case EnterWork(id) => [Enter(id)] + rest
      case MoveOver(_, _, _) => rest
      case LeaveWork(_) => [Leave] + rest
  }

  /**
   * The section's hovered id follows the shared two-transition hover machine
   * exactly: pointer moves never change it.
   */
  lemma {:induction false} HoverFollowsFocusField(s: WorksState, events: seq<WorksEvent>)
    ensures HandleAll(s, events).hovered == Run(s.hovered, HoverEvents(events))
    decreases |events|
  {
    if |events| > 0 {
      var s1 := Handle(s, events[0]);
      HoverFollowsFocusField(s1, events[1..]);
      match events[0]
      case EnterWork(id) =>
      case MoveOver(_, _, _) =>
      case LeaveWork(_) =>
    }
  }

  /** Events on other works never move this work's image. */
  lemma {:induction false} OnlyOwnEventsMoveImage(s: WorksState, events: seq<WorksEvent>, id: int)
    requires forall i :: 0 <= i < |events| ==> events[i].id != id
    ensures ImageTarget(HandleAll(s, events), id) == ImageTarget(s, id)
    decreases |events|
  {
    if |events| > 0 {
      OnlyOwnEventsMoveImage(Handle(s, events[0]), events[1..], id);
    }
  }

  /**
   * From the initial state the hovered id is the hover machine run from `null`,
   * and a work that received no event keeps its image at the origin.
   */
  lemma FromInitial(events: seq<WorksEvent>, id: int)
    requires forall i :: 0 <= i < |events| ==> events[i].id != id
    ensures HandleAll(Initial, events).hovered == Run(None, HoverEvents(events))
    ensures ImageTarget(HandleAll(Initial, events), id) == Zero
  {
    HoverFollowsFocusField(Initial, events);
    OnlyOwnEventsMoveImage(Initial, events, id);
  }

  /** The utility classes a work carries, as numbers: opacity and scale in percent. */
  datatype WorkClasses = WorkClasses(
    blurPx: real,
    grayscale: bool,
    opacity: int,
    scale: int,
    zIndex: int,
    imageScale: int,
    labelOpacity: int,
    labelShown: bool)

  /** The classes of every work when nothing is hovered. */
  const RestClasses: WorkClasses := WorkClasses(0.0, false, 100, 100, 10, 100, 0, false)

  function ClassesFor(hovered: Option<int>, id: int): (c: WorkClasses)
    ensures c.opacity == 40 && c.scale == 95 && c.grayscale && c.blurPx == 2.0 <==> IsBlurred(hovered, id)
    ensures !IsBlurred(hovered, id) ==> c.opacity == 100 && c.scale == 100 && !c.grayscale && c.blurPx == 0.0
    ensures c.zIndex == 50 <==> IsHovered(hovered, id)
    ensures !IsHovered(hovered, id) ==> c.zIndex == 10
    ensures c.imageScale > 100 <==> IsHovered(hovered, id)
    ensures IsHovered(hovered, id) ==> c.imageScale == 110 && c.labelOpacity == 100
    ensures !IsHovered(hovered, id) ==> c.imageScale == 100 && c.labelOpacity == 0
    ensures c.labelShown <==> IsHovered(hovered, id)
    ensures c.labelShown <==> c.labelOpacity == 100
    ensures !(c.labelShown && c.grayscale)
    ensures hovered == None ==> c == RestClasses
  {
    var isHovered := IsHovered(hovered, id);
    var isBlurred := IsBlurred(hovered, id);
    WorkClasses(
      if isBlurred then 2.0 else 0.0,
      isBlurred,
      if isBlurred then 40 else 100,
      if isBlurred then 95 else 100,
      if isHovered then 50 else 10,
      if isHovered then 110 else 100,
      if isHovered then 100 else 0,
      isHovered)
  }

  function RenderWorks(hovered: Option<int>, works: seq<Work>): (cs: seq<WorkClasses>)
    ensures |cs| == |works|
    ensures forall i :: 0 <= i < |works| ==> cs[i] == ClassesFor(hovered, works[i].id)
  {
    seq(|works|, i requires 0 <= i < |works| => ClassesFor(hovered, works[i].id))
  }

  /**
   * Whatever the hovered id, at most one of the four works is hovered and shows
   * its label; with something hovered every other work is blurred.
   */
  lemma AtMostOneWorkHovered(hovered: Option<int>)
    ensures CountHovered(hovered, WorkIds(Works)) <= 1
    ensures forall i, j :: 0 <= i < j < |Works| ==>
              !(RenderWorks(hovered, Works)[i].labelShown && RenderWorks(hovered, Works)[j].labelShown)
    ensures hovered.Some? ==> CountHovered(hovered, WorkIds(Works)) + CountBlurred(hovered, WorkIds(Works)) == |Works|
  {
    assert Distinct(WorkIds(Works));
    AtMostOneHovered(hovered, WorkIds(Works));
    BlurredComplementsHovered(hovered, WorkIds(Works));
  }
}
