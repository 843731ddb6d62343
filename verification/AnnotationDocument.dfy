/** src/capture/annotation_document.cpp: the document the overlay edits. */
module AnnotationDocument {
  import opened Wrappers
  import opened DecimalText
  import opened AnnotationHistory

  /** Drops the oldest states of a stack that has outgrown the limit. */
  method TrimOldest(stack: seq<seq<Annotation>>) returns (trimmed: seq<seq<Annotation>>)
    ensures trimmed == Trim(stack)
  {
    trimmed := stack;
    while |trimmed| > HISTORY_LIMIT
      invariant |trimmed| <= |stack| && trimmed == stack[|stack| - |trimmed|..]
      invariant |stack| > HISTORY_LIMIT ==> |trimmed| >= HISTORY_LIMIT
      invariant |stack| <= HISTORY_LIMIT ==> trimmed == stack
    {
      trimmed := trimmed[1..];
    }
  }

  class Annotations {
    var annotations: seq<Annotation>
    var undo: seq<seq<Annotation>>
    var redo: seq<seq<Annotation>>
    var crop: Option<Rect>
    var generation: nat
    var interactionOpen: bool

    ghost function View(): Document
      reads this
    {
      Document(annotations, undo, redo, crop, generation, interactionOpen)
    }

    constructor ()
      ensures View() == EMPTY
    {
      annotations, undo, redo, crop, generation, interactionOpen := [], [], [], None, 0, false;
    }

    method BeginInteraction()
      modifies this
      ensures View() == Begun(old(View()))
    {
      undo := TrimOldest(undo + [annotations]);
      redo := [];
      interactionOpen := true;
    }

    method DiscardInteraction()
      modifies this
      ensures View() == Discarded(old(View()))
    {
      interactionOpen := false;
      if undo == [] {
        return;
      }
      annotations, undo := undo[|undo| - 1], undo[..|undo| - 1];
      generation := generation + 1;
    }

    method Renumber()
      modifies this`annotations
      ensures annotations == Renumbered(old(annotations))
    {
      var count := 0;
      for i := 0 to |annotations|
        invariant |annotations| == |old(annotations)| && count == Numbers(old(annotations), i)
        invariant forall j :: 0 <= j < i ==> annotations[j] == Relabel(old(annotations), j)
        invariant forall j :: i <= j < |annotations| ==> annotations[j] == old(annotations)[j]
      {
        if annotations[i].tool.Numbering? {
          count := count + 1;
          annotations := annotations[i := annotations[i].(text := Decimal(count))];
        }
      }
    }

    method UndoStep() returns (done: bool)
      modifies this
      ensures View() == Undone(old(View())) && done == (old(undo) != [])
    {
      if undo == [] {
        return false;
      }
      redo := TrimOldest(redo + [annotations]);
      annotations, undo := undo[|undo| - 1], undo[..|undo| - 1];
      Renumber();
      generation := generation + 1;
      return true;
    }

    method RedoStep() returns (done: bool)
      modifies this
      ensures View() == Redone(old(View())) && done == (old(redo) != [])
    {
      if redo == [] {
        return false;
      }
      undo := TrimOldest(undo + [annotations]);
      annotations, redo := redo[|redo| - 1], redo[..|redo| - 1];
      Renumber();
      generation := generation + 1;
      return true;
    }

    method Push(a: Annotation)
      modifies this
      ensures View() == AfterEdit(old(View()), Edit.Push(a))
    {
      annotations := annotations + [a];
      generation := generation + 1;
    }

    /** What the overlay pushes for a press of the numbering tool. */
    method PushNumber(a: Annotation)
      modifies this
      ensures View() == AfterEdit(old(View()), Edit.PushNumber(a))
    {
      var count := 0;
      for i := 0 to |annotations|
        invariant count == Numbers(annotations, i)
        invariant View() == old(View())
      {
        if annotations[i].tool.Numbering? {
          count := count + 1;
        }
      }
      annotations := annotations + [a.(tool := Numbering, text := Decimal(count + 1))];
      generation := generation + 1;
    }

    method Erase(index: nat)
      modifies this
      ensures View() == if index < |old(annotations)|
                        then old(View()).(annotations := DropAt(old(annotations), index),
                                          generation := old(generation) + 1)
                        else old(View())
    {
      if index >= |annotations| {
        return;
      }
      annotations := annotations[..index] + annotations[index + 1..];
      generation := generation + 1;
    }

    /** Topmost first, so that the indices still to be looked at do not move. */
    method EraseAlong(hit: Annotation -> bool) returns (removed: nat)
      modifies this
      ensures View() == AfterEdit(old(View()), Edit.EraseAlong(hit))
      ensures removed == |old(annotations)| - |Kept(old(annotations), hit, |old(annotations)|)|
    {
      removed := RemoveHits(hit);
      if removed > 0 {
        Renumber();
        generation := generation + 1;
      } else {
        KeptAll(old(annotations), hit, |old(annotations)|);
      }
    }

    method RemoveHits(hit: Annotation -> bool) returns (removed: nat)
      modifies this`annotations
      ensures annotations == Kept(old(annotations), hit, |old(annotations)|)
      ensures removed == |old(annotations)| - |annotations|
    {
      ghost var before := annotations;
      removed := 0;
      var list, i := annotations, |annotations|;
      while i > 0
        invariant 0 <= i && i + removed <= |before| && |list| == |before| - removed
        invariant list[..i] == before[..i]
        invariant Kept(before, hit, i) + list[i..] == Kept(before, hit, |before|)
      {
        assert list[i - 1] == before[i - 1];
        if hit(list[i - 1]) {
          list := list[..i - 1] + list[i..];
          removed := removed + 1;
        }
        i := i - 1;
      }
      annotations := list;
    }

    method Offset(index: nat, dx: real, dy: real)
      modifies this
      ensures View() == AfterEdit(old(View()), Edit.Offset(index, dx, dy))
    {
      if index >= |annotations| {
        return;
      }
      var points := annotations[index].points;
      for i := 0 to |points|
        invariant View() == old(View())
        invariant |points| == |old(annotations)[index].points|
        invariant forall j :: 0 <= j < i ==> points[j] == Moved(old(annotations)[index].points, dx, dy)[j]
        invariant forall j :: i <= j < |points| ==> points[j] == old(annotations)[index].points[j]
      {
        points := points[i := Spot(points[i].x + dx, points[i].y + dy)];
      }
      assert points == Moved(old(annotations)[index].points, dx, dy);
      annotations := annotations[index := annotations[index].(points := points)];
      generation := generation + 1;
    }

    /** The annotation the open gesture is drawing. */
    method Active() returns (index: Option<nat>)
      ensures index == if interactionOpen && annotations != [] then Some(|annotations| - 1) else None
    {
      index := if interactionOpen && annotations != [] then Some(|annotations| - 1) else None;
    }

    method Redraw(points: seq<Spot>)
      modifies this
      ensures View() == AfterEdit(old(View()), Edit.Redraw(points))
    {
      var active := Active();
      if active.Some? {
        annotations := annotations[active.value := annotations[active.value].(points := points)];
      }
    }

    method Retype(text: string)
      modifies this
      ensures View() == AfterEdit(old(View()), Edit.Retype(text))
    {
      var active := Active();
      if active.Some? && annotations[active.value].tool.Text? {
        annotations := annotations[active.value := annotations[active.value].(text := text)];
      }
    }

    /** The text under the caret takes the width and colour just chosen. */
    method Restyle(width: real, stroke: Color)
      modifies this
      ensures View() == AfterEdit(old(View()), Edit.Restyle(width, stroke))
    {
      var active := Active();
      if active.Some? && annotations[active.value].tool.Text? {
        annotations := annotations[active.value := annotations[active.value].(width := width, stroke := stroke)];
      }
    }

    method SetCrop(region: Option<Rect>)
      modifies this
      ensures View() == AfterEdit(old(View()), Edit.SetCrop(region))
    {
      crop := region;
      generation := generation + 1;
    }

    method Clear()
      modifies this
      ensures View() == Cleared(old(View()))
    {
      annotations, undo, redo, crop, interactionOpen := [], [], [], None, false;
      generation := generation + 1;
    }
  }
}
