/**
 * The stop list of src/components/AvailableStops.tsx: each stop's description
 * is collapsed behind a "Read more" trigger until the stop is opened, and the `open`
 * state is a list of stop ids that opening only ever appends to.
 */
module AvailableStops {
  import TimeUtils

  type StopId = int

  /** The fields of a possible stop that the component's logic reads. */
  datatype Stop = Stop(id: StopId, durationInMinutes: nat, price: int)

  /** One rendered stop: whether its description is expanded, whether "Read more" shows, its duration text. */
  datatype StopView = StopView(id: StopId, expanded: bool, readMore: bool, duration: string)

  /** The `open` state cell of the component. */
  class StopDescriptions {
    var open: seq<StopId>

    /** `useState([])`: nothing is expanded at first. */
    constructor ()
      ensures open == []
      ensures forall id :: !IsOpen(id)
    {
      open := [];
    }

    /** `open.includes(id)`. */
    predicate IsOpen(id: StopId)
      reads this
    {
      id in open
    }

    /**
     * `onOpenChange` for a stop: whatever open state the collapsible asks
     * for, the id is appended (without deduplication), so the stop is open
     * afterwards, every open stop stays open and no other stop changes.
     */
    method OnOpenChange(id: StopId, requested: bool)
      modifies this
      ensures open == old(open) + [id]
      ensures |open| == |old(open)| + 1
      ensures IsOpen(id)
      ensures forall other :: other != id ==> (IsOpen(other) <==> old(IsOpen(other)))
      ensures forall other :: old(IsOpen(other)) ==> IsOpen(other)
    {
      open := open + [id];
    }
  }

  /**
   * The rendering rule: a stop is expanded exactly when its id is in `open`,
   * and "Read more" shows exactly when it is not; the duration is the
   * formatted minutes.
   */
  function StopViews(open: seq<StopId>, stops: seq<Stop>): (views: seq<StopView>)
    ensures |views| == |stops|
    ensures forall i :: 0 <= i < |stops| ==>
              && views[i].id == stops[i].id
              && (views[i].expanded <==> stops[i].id in open)
              && (views[i].readMore <==> stops[i].id !in open)
              && views[i].duration == TimeUtils.DurationText(stops[i].durationInMinutes)
  {
    if stops == [] then []
    else
      var last := stops[|stops| - 1];
      StopViews(open, stops[..|stops| - 1])
      + [StopView(last.id, last.id in open, last.id !in open, TimeUtils.DurationText(last.durationInMinutes))]
  }

  /**
   * Opening a stop hides its "Read more" trigger and expands it, and leaves
   * every other stop's view as it was.
   */
  lemma OpeningChangesOnlyThatStop(open: seq<StopId>, stops: seq<Stop>, id: StopId)
    ensures forall i :: 0 <= i < |stops| ==>
              var before := StopViews(open, stops)[i];
              var after := StopViews(open + [id], stops)[i];
              && (stops[i].id == id ==> after.expanded && !after.readMore)
              && (stops[i].id != id ==> after == before)
  {
  }
}
