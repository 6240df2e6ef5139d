/**
 * The parent's list of children (client/src/pages/children/ChildrenList.jsx):
 * deletion takes two presses on the same child, and an armed confirmation
 * lapses three seconds after the press that armed it. Timer expiries are
 * events carrying the current time; the deletion request's outcome is an
 * input. The age shown is `AgeLabel.Detailed`.
 */
module ChildrenList {
  import opened Common

  /** A child as the list shows it. */
  datatype ChildItem = ChildItem(id: string, name: string)

  /** How long a confirmation stays armed, in milliseconds. */
  const ConfirmWindow: int := 3000

  /** `children.filter(c => c._id !== childId)`: only that child goes, the others keep their order. */
  function WithoutChild(children: seq<ChildItem>, childId: string): (r: seq<ChildItem>)
    ensures forall c :: c in r <==> c in children && c.id != childId
    ensures IsSubsequence(r, children)
  {
    Filter(children, (c: ChildItem) => c.id != childId)
  }

  /** Children without the removed id are all kept: the list is unchanged when no child has it. */
  lemma WithoutAbsentChild(children: seq<ChildItem>, childId: string)
    requires forall i :: 0 <= i < |children| ==> children[i].id != childId
    ensures WithoutChild(children, childId) == children
  {
    FilterAll(children, (c: ChildItem) => c.id != childId);
  }

  class ChildrenPage {
    var children: seq<ChildItem>
    /** The child whose deletion awaits a second press. */
    var armed: Option<string>
    /** The times at which pending `setTimeout(() => setDeleteConfirm(null), 3000)` calls fire. */
    var timers: seq<int>

    constructor(loaded: seq<ChildItem>)
      ensures children == loaded && armed == None && timers == []
    {
      children := loaded;
      armed := None;
      timers := [];
    }

    /**
     * `handleDelete`: a press on the armed child sends the deletion, and on
     * success removes only that child and disarms (a failed request changes
     * nothing); a press on any other child arms it and starts a timer.
     */
    method Press(childId: string, now: int, deleted: bool) returns (sentDelete: bool)
      modifies this
      ensures sentDelete <==> old(armed) == Some(childId)
      ensures sentDelete && deleted ==> children == WithoutChild(old(children), childId) && armed == None && timers == old(timers)
      ensures sentDelete && !deleted ==> children == old(children) && armed == old(armed) && timers == old(timers)
      ensures !sentDelete ==> children == old(children) && armed == Some(childId) && timers == old(timers) + [now + ConfirmWindow]
    {
      if armed == Some(childId) {
        sentDelete := true;
        if deleted {
          children := WithoutChild(children, childId);
          armed := None;
        }
      } else {
        sentDelete := false;
        armed := Some(childId);
        timers := timers + [now + ConfirmWindow];
      }
    }

    /**
     * Time passes to `now`: every timer due by then fires and clears
     * whatever confirmation is armed, including one armed by a later press.
     */
    method Elapse(now: int)
      modifies this`armed, this`timers
      ensures timers == Filter(old(timers), (t: int) => t > now)
      ensures (exists t :: t in old(timers) && t <= now) ==> armed == None
      ensures (forall t :: t in old(timers) ==> t > now) ==> armed == old(armed)
    {
      var due := exists t :: t in timers && t <= now;
      if due {
        armed := None;
      }
      timers := Filter(timers, (t: int) => t > now);
    }
  }
}
