/**
 * The hover state shared by both project grids: a single `hoveredId` field
 * (`null` when nothing is hovered) with two mutators, pointer-enter on an entity
 * and pointer-leave. Every entity's focus is derived from that one field.
 */
module FocusField {
  import opened Wrappers

  /** The two pointer events that change the hovered id. */
  datatype HoverEvent<Id> = Enter(id: Id) | Leave

  /** How an entity appears relative to the hovered one. */
  datatype Focus = Idle | Focused | Dimmed

  /** The state after one event: enter focuses its entity, leave clears the field. */
  function Step<Id(==)>(hovered: Option<Id>, e: HoverEvent<Id>): (next: Option<Id>)
    ensures next.Some? <==> e.Enter?
    ensures e.Enter? ==> next.value == e.id
  {
    match e
    case Enter(id) => Some(id)
    case Leave => None
  }

  /** The state after a whole sequence of events, applied in order. */
  function Run<Id(==)>(hovered: Option<Id>, events: seq<HoverEvent<Id>>): Option<Id>
    decreases |events|
  {
    if |events| == 0 then hovered else Run(Step(hovered, events[0]), events[1..])
  }

  /** A transition never looks at the previous value. */
  lemma StepForgetsPrevious<Id>(h1: Option<Id>, h2: Option<Id>, e: HoverEvent<Id>)
    ensures Step(h1, e) == Step(h2, e)
  {
  }

  /**
   * After a non-empty sequence of events the hovered id is decided by the last
   * event alone: entering A then B goes straight to B, and a final leave clears it.
   */
  lemma {:induction false} LastEventDecides<Id>(hovered: Option<Id>, events: seq<HoverEvent<Id>>)
    requires |events| > 0
    decreases |events|
    ensures Run(hovered, events) == (match events[|events| - 1]
                                      case Enter(id) => Some(id)
                                      case Leave => None)
  {
    if |events| > 1 {
      LastEventDecides(Step(hovered, events[0]), events[1..]);
      assert events[1..][|events[1..]| - 1] == events[|events| - 1];
    }
  }

  /** A hovered id is either the starting one or was entered by some event. */
  lemma {:induction false} HoveredWasEntered<Id>(hovered: Option<Id>, events: seq<HoverEvent<Id>>)
    ensures Run(hovered, events).Some? ==>
              Run(hovered, events) == hovered ||
              exists i :: 0 <= i < |events| && events[i] == Enter(Run(hovered, events).value)
    decreases |events|
  {
    if |events| > 0 {
      var tail := events[1..];
      HoveredWasEntered(Step(hovered, events[0]), tail);
      var r := Run(hovered, events);
      if r.Some? && r != hovered {
        if r == Step(hovered, events[0]) {
          assert events[0] == Enter(r.value);
        } else {
          var i :| 0 <= i < |tail| && tail[i] == Enter(r.value);
          assert events[i + 1] == Enter(r.value);
        }
      }
    }
  }

  /** `hoveredId === id` */
  predicate IsHovered<Id(==)>(hovered: Option<Id>, id: Id) {
    hovered == Some(id)
  }

  /** `hoveredId !== null && hoveredId !== id` */
  predicate IsBlurred<Id(==)>(hovered: Option<Id>, id: Id) {
    hovered.Some? && hovered.value != id
  }

  /**
   * The focus of the entity `id` under the hovered id. The components test
   * `IsHovered` and `IsBlurred` directly; this states the three-way split they
   * make together.
   */
  function FocusOf<Id(==)>(hovered: Option<Id>, id: Id): (f: Focus)
    ensures f == Focused <==> IsHovered(hovered, id)
    ensures f == Dimmed <==> IsBlurred(hovered, id)
    ensures f == Idle <==> hovered == None
  {
    if hovered == None then Idle
    else if hovered.value == id then Focused
    else Dimmed
  }

  /** No entity is ever both hovered and blurred, and with nothing hovered none is blurred. */
  lemma HoveredAndBlurredExclusive<Id>(hovered: Option<Id>, id: Id)
    ensures !(IsHovered(hovered, id) && IsBlurred(hovered, id))
    ensures hovered == None ==> !IsHovered(hovered, id) && !IsBlurred(hovered, id)
    ensures hovered != None ==> IsHovered(hovered, id) || IsBlurred(hovered, id)
  {
  }

  /** The ids of a list of entities, in order. */
  function IdsOf<T, Id>(entities: seq<T>, idOf: T -> Id): (ids: seq<Id>)
    ensures |ids| == |entities|
    ensures forall i :: 0 <= i < |entities| ==> ids[i] == idOf(entities[i])
  {
    seq(|entities|, i requires 0 <= i < |entities| => idOf(entities[i]))
  }

  predicate Distinct<Id(==)>(ids: seq<Id>) {
    forall i, j :: 0 <= i < j < |ids| ==> ids[i] != ids[j]
  }

  /** How many of `ids` are hovered. */
  function CountHovered<Id(==)>(hovered: Option<Id>, ids: seq<Id>): nat
    decreases |ids|
  {
    if |ids| == 0 then 0
    else (if IsHovered(hovered, ids[0]) then 1 else 0) + CountHovered(hovered, ids[1..])
  }

  /** How many of `ids` are blurred. */
  function CountBlurred<Id(==)>(hovered: Option<Id>, ids: seq<Id>): nat
    decreases |ids|
  {
    if |ids| == 0 then 0
    else (if IsBlurred(hovered, ids[0]) then 1 else 0) + CountBlurred(hovered, ids[1..])
  }

  lemma {:induction false} NoneHoveredWhenAbsent<Id>(hovered: Option<Id>, ids: seq<Id>)
    requires hovered == None || hovered.value !in ids
    ensures CountHovered(hovered, ids) == 0
    decreases |ids|
  {
    if |ids| > 0 {
      assert ids[0] in ids;
      assert forall x :: x in ids[1..] ==> x in ids;
      NoneHoveredWhenAbsent(hovered, ids[1..]);
    }
  }

  /** With distinct ids, at most one entity is hovered, and exactly one when its id is hovered. */
  lemma {:induction false} AtMostOneHovered<Id>(hovered: Option<Id>, ids: seq<Id>)
    requires Distinct(ids)
    ensures CountHovered(hovered, ids) <= 1
    ensures hovered.Some? && hovered.value in ids ==> CountHovered(hovered, ids) == 1
    decreases |ids|
  {
    if |ids| > 0 {
      var tail := ids[1..];
      assert Distinct(tail) by {
        forall i, j | 0 <= i < j < |tail| ensures tail[i] != tail[j] {
          assert tail[i] == ids[i + 1] && tail[j] == ids[j + 1];
        }
      }
      AtMostOneHovered(hovered, tail);
      if IsHovered(hovered, ids[0]) {
        assert hovered.value !in tail;
        NoneHoveredWhenAbsent(hovered, tail);
      } else if hovered.Some? && hovered.value in ids {
        assert ids == [ids[0]] + tail;
        assert hovered.value in tail;
      }
    }
  }

  /**
   * Whenever something is hovered, every entity is either the hovered one or
   * blurred; with nothing hovered, none is blurred.
   */
  lemma {:induction false} BlurredComplementsHovered<Id>(hovered: Option<Id>, ids: seq<Id>)
    ensures hovered.Some? ==> CountHovered(hovered, ids) + CountBlurred(hovered, ids) == |ids|
    ensures hovered == None ==> CountHovered(hovered, ids) == 0 && CountBlurred(hovered, ids) == 0
    decreases |ids|
  {
    if |ids| > 0 {
      BlurredComplementsHovered(hovered, ids[1..]);
    }
  }
}
