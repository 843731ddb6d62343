/** src/capture/annotation_document.cpp: the two bounded stacks are one timeline with a cursor. */
module AnnotationTimeline {
  import opened Wrappers
  import opened AnnotationHistory
  import opened DecimalText

  // ---- what every operation keeps ----

  predicate AllLabelled(stack: seq<seq<Annotation>>) {
    forall i :: 0 <= i < |stack| ==> Labelled(stack[i])
  }

  predicate Inv(d: Document) {
    |d.undo| + |d.redo| <= HISTORY_LIMIT && Labelled(d.annotations) && AllLabelled(d.undo) && AllLabelled(d.redo)
  }

  /** The overlay pushes a number only with the next label. */
  predicate ByOverlay(e: Edit) {
    e.Push? ==> !e.a.tool.Numbering?
  }

  datatype Event = Begin | Discard | End | Undo | Redo | Clear | Do(edit: Edit)

  function Step(d: Document, event: Event): Document {
    match event
    case Begin => Begun(d)
    case Discard => Discarded(d)
    case End => d.(open := false)
    case Undo => Undone(d)
    case Redo => Redone(d)
    case Clear => Cleared(d)
    case Do(e) => AfterEdit(d, e)
  }

  function Run(d: Document, events: seq<Event>, n: nat): Document
    requires n <= |events|
  {
    if n == 0 then d else Step(Run(d, events, n - 1), events[n - 1])
  }

  lemma EraseKeepsLabels(list: seq<Annotation>, hit: Annotation -> bool)
    requires Labelled(list)
    ensures Labelled(Erased(list, hit))
  {
    RenumberedIsLabelled(Kept(list, hit, |list|));
  }

  lemma EditedIsLabelled(list: seq<Annotation>, open: bool, e: Edit)
    requires Labelled(list) && ByOverlay(e)
    ensures Labelled(Edited(list, open, e))
  {
    match e
    case Push(a) => PushKeepsLabelsIff(list, a);
    case PushNumber(a) => PushedNumberContinues(list, a);
    case Offset(index, dx, dy) =>
      if index < |list| {
        EditKeepsLabels(list, index, list[index].(points := Moved(list[index].points, dx, dy)));
      }
    case EraseAlong(hit) => EraseKeepsLabels(list, hit);
    case Redraw(points) =>
      if list != [] {
        EditKeepsLabels(list, |list| - 1, Last(list).(points := points));
      }
    case Retype(text) =>
      if list != [] && Last(list).tool.Text? {
        EditKeepsLabels(list, |list| - 1, Last(list).(text := text));
      }
    case Restyle(width, stroke) =>
      if list != [] {
        EditKeepsLabels(list, |list| - 1, Last(list).(width := width, stroke := stroke));
      }
    case SetCrop(_) =>
    case Touch =>
  }

  lemma PushedNumberContinues(list: seq<Annotation>, a: Annotation)
    requires Labelled(list)
    ensures Labelled(Edited(list, false, PushNumber(a))) && Labelled(Edited(list, true, PushNumber(a)))
  {
    PushKeepsLabelsIff(list, Last(Edited(list, false, PushNumber(a))));
  }

  lemma StepKeepsInv(d: Document, event: Event)
    requires Inv(d) && (event.Do? ==> ByOverlay(event.edit))
    ensures Inv(Step(d, event))
  {
    match event
    case Begin =>
    case Discard =>
    case End =>
    case Undo => if d.undo != [] { RenumberedIsLabelled(Last(d.undo)); }
    case Redo => if d.redo != [] { RenumberedIsLabelled(Last(d.redo)); }
    case Clear =>
    case Do(e) => EditedIsLabelled(d.annotations, d.open, e);
  }

  /** In every reachable document the stacks fit together and every number is in place. */
  lemma {:induction false} RunKeepsInv(events: seq<Event>, n: nat)
    requires n <= |events| && forall i :: 0 <= i < n && events[i].Do? ==> ByOverlay(events[i].edit)
    ensures Inv(Run(EMPTY, events, n))
  {
    if n > 0 {
      RunKeepsInv(events, n - 1);
      StepKeepsInv(Run(EMPTY, events, n - 1), events[n - 1]);
    }
  }

  // ---- the timeline ----

  function Reversed<T>(s: seq<T>): (r: seq<T>)
    ensures |r| == |s|
  {
    seq(|s|, i requires 0 <= i < |s| => s[|s| - 1 - i])
  }

  /** Every remembered state, the oldest first; the cursor is at index |undo|. */
  function Timeline(d: Document): seq<seq<Annotation>> {
    d.undo + [d.annotations] + Reversed(d.redo)
  }

  lemma UndoneParts(d: Document)
    requires Inv(d) && d.undo != []
    ensures Undone(d) == d.(annotations := Last(d.undo), undo := Front(d.undo), redo := d.redo + [d.annotations],
                            generation := d.generation + 1)
  {
    RenumberIsIdleIff(Last(d.undo));
  }

  lemma RedoneParts(d: Document)
    requires Inv(d) && d.redo != []
    ensures Redone(d) == d.(annotations := Last(d.redo), redo := Front(d.redo), undo := d.undo + [d.annotations],
                            generation := d.generation + 1)
  {
    RenumberIsIdleIff(Last(d.redo));
  }

  lemma ShiftLeft<T>(undo: seq<T>, now: T, redo: seq<T>)
    requires undo != []
    ensures Front(undo) + [Last(undo)] + Reversed(redo + [now]) == undo + [now] + Reversed(redo)
  {
    assert Front(undo) + [Last(undo)] == undo;
    assert Reversed(redo + [now]) == [now] + Reversed(redo);
  }

  /** Undo moves the cursor one back on the same timeline. */
  lemma UndoMovesCursor(d: Document)
    requires Inv(d) && d.undo != []
    ensures Timeline(Undone(d)) == Timeline(d) && |Undone(d).undo| == |d.undo| - 1
    ensures Undone(d).annotations == Timeline(d)[|d.undo| - 1]
  {
    UndoneParts(d);
    ShiftLeft(d.undo, d.annotations, d.redo);
  }

  /** Redo moves it one forward. */
  lemma RedoMovesCursor(d: Document)
    requires Inv(d) && d.redo != []
    ensures Timeline(Redone(d)) == Timeline(d) && |Redone(d).undo| == |d.undo| + 1
    ensures Redone(d).annotations == Timeline(d)[|d.undo| + 1]
  {
    RedoneParts(d);
    ShiftLeft(d.undo + [d.annotations], Last(d.redo), Front(d.redo));
    assert Front(d.redo) + [Last(d.redo)] == d.redo;
    assert Front(d.undo + [d.annotations]) == d.undo;
  }

  function Undos(d: Document, k: nat): Document
    decreases k
  {
    if k == 0 then d else Undos(Undone(d), k - 1)
  }

  function Redos(d: Document, k: nat): Document {
    if k == 0 then d else Redone(Redos(d, k - 1))
  }

  lemma RedoAfterUndo(d: Document, bumps: nat)
    requires Inv(d) && d.undo != []
    ensures Redone(Undone(d).(generation := Undone(d).generation + bumps)) == d.(generation := d.generation + bumps + 2)
  {
    UndoneParts(d);
    RenumberIsIdleIff(d.annotations);
    assert Front(d.undo) + [Last(d.undo)] == d.undo;
    assert Front(d.redo + [d.annotations]) == d.redo;
  }

  lemma OneMorePair(d: Document, k: nat, back: Document, between: Document)
    requires Inv(d) && d.undo != [] && 0 < k && back == Undone(d) && between == Undos(back, k - 1)
    requires Redos(between, k - 1) == back.(generation := back.generation + 2 * (k - 1))
    ensures Redos(Undos(d, k), k) == d.(generation := d.generation + 2 * k)
  {
    RedoAfterUndo(d, 2 * (k - 1));
  }

  lemma UndoKeepsInv(d: Document)
    requires Inv(d) && d.undo != []
    ensures Inv(Undone(d)) && |Undone(d).undo| == |d.undo| - 1
  {
    StepKeepsInv(d, Undo);
  }

  /** As many redos as undos restore the document exactly, however many were made. */
  lemma {:induction false} RedosAfterUndos(d: Document, k: nat)
    requires Inv(d) && k <= |d.undo|
    ensures Redos(Undos(d, k), k) == d.(generation := d.generation + 2 * k)
    decreases k
  {
    if k > 0 {
      UndoKeepsInv(d);
      var back := Undone(d);
      RedosAfterUndos(back, k - 1);
      OneMorePair(d, k, back, Undos(back, k - 1));
    }
  }

  /** `k` undos land `k` states back on the timeline. */
  lemma {:induction false} UndosLand(d: Document, k: nat)
    requires Inv(d) && k <= |d.undo|
    ensures Timeline(Undos(d, k)) == Timeline(d) && Undos(d, k).annotations == Timeline(d)[|d.undo| - k]
    decreases k
  {
    if k > 0 {
      UndoMovesCursor(d);
      StepKeepsInv(d, Undo);
      UndosLand(Undone(d), k - 1);
    }
  }

  // ---- single operations ----

  /** Beginning an interaction remembers the annotations as the newest of at most fifty states and forgets what
      was undone; clearing leaves an empty document with no crop and no history. */
  lemma BeginAndClear(d: Document)
    ensures var begun := Begun(d);
      && begun.annotations == d.annotations && begun.crop == d.crop && begun.redo == [] && begun.open
      && |begun.undo| == (if |d.undo| < 50 then |d.undo| + 1 else 50) && begun.undo[|begun.undo| - 1] == d.annotations
      && forall i :: 0 <= i < |begun.undo| - 1 ==> begun.undo[i] == d.undo[|d.undo| - (|begun.undo| - 1) + i]
    ensures var cleared := Cleared(d);
      && cleared.annotations == [] && cleared.undo == [] && cleared.redo == [] && cleared.crop == None && !cleared.open
      && cleared.generation != d.generation
  {
  }

  /** Dragging an annotation moves each of its points by the same way, and nothing else. */
  lemma OffsetMoves(d: Document, index: nat, dx: real, dy: real)
    ensures var list := AfterEdit(d, Offset(index, dx, dy)).annotations;
      && |list| == |d.annotations|
      && (forall i :: 0 <= i < |list| && i != index ==> list[i] == d.annotations[i])
      && (index < |list| ==>
            && list[index] == d.annotations[index].(points := list[index].points)
            && |list[index].points| == |d.annotations[index].points|
            && forall k :: 0 <= k < |list[index].points| ==>
                 && list[index].points[k].x == d.annotations[index].points[k].x + dx
                 && list[index].points[k].y == d.annotations[index].points[k].y + dy)
  {
  }

  /** New annotations come last, a number with the next label; what is drawn, typed or chosen is found in the
      last annotation of an open interaction. */
  lemma EditsWrite(d: Document, e: Edit)
    ensures var list := AfterEdit(d, e).annotations; var n := |d.annotations|;
      && (e.Push? || e.PushNumber? ==> |list| == n + 1 && list[..n] == d.annotations)
      && (e.Push? ==> list[n] == e.a)
      && (e.PushNumber? ==> list[n].tool == Numbering && list[n].text == Decimal(Numbers(d.annotations, n) + 1))
      && (d.open && n > 0 && e.Redraw? ==> list[n - 1].points == e.points)
      && (d.open && n > 0 && d.annotations[n - 1].tool == Text ==>
            && (e.Retype? ==> list[n - 1].text == e.text)
            && (e.Restyle? ==> list[n - 1].width == e.width && list[n - 1].stroke == e.stroke))
    ensures AfterEdit(d, e).crop == if e.SetCrop? then e.crop else d.crop
  {
  }

  predicate InPlace(e: Edit) { e.Redraw? || e.Retype? || e.Restyle? }

  /** Drawing, typing and styling change the last annotation only, while an interaction is open, typing and styling
      only a text, and none of them its tool; whatever else changes the annotations or the crop moves the
      generation. */
  lemma EditsInPlace(d: Document, e: Edit)
    ensures var t := AfterEdit(d, e); var n := |d.annotations|;
      && (InPlace(e) ==>
            && |t.annotations| == n && t.crop == d.crop && t.generation == d.generation
            && (forall i :: 0 <= i < n - 1 ==> t.annotations[i] == d.annotations[i])
            && (!d.open ==> t.annotations == d.annotations)
            && (n > 0 ==> t.annotations[n - 1].tool == d.annotations[n - 1].tool)
            && (n > 0 && (e.Retype? || e.Restyle?) && d.annotations[n - 1].tool != Text ==>
                  t.annotations == d.annotations))
      && (!InPlace(e) && (t.annotations != d.annotations || t.crop != d.crop) ==>
            t.generation > d.generation)
  {
  }

  // ---- one gesture ----

  function RunEdits(d: Document, edits: seq<Edit>, n: nat): Document
    requires n <= |edits|
  {
    if n == 0 then d else AfterEdit(RunEdits(d, edits, n - 1), edits[n - 1])
  }

  predicate AllByOverlay(edits: seq<Edit>) {
    forall i :: 0 <= i < |edits| ==> ByOverlay(edits[i])
  }

  lemma {:induction false} EditsKeepStacks(d: Document, edits: seq<Edit>, n: nat)
    requires n <= |edits|
    ensures var after := RunEdits(d, edits, n); after.undo == d.undo && after.redo == d.redo && after.open == d.open
    ensures Inv(d) && AllByOverlay(edits) ==> Inv(RunEdits(d, edits, n))
  {
    if n > 0 {
      EditsKeepStacks(d, edits, n - 1);
      if Inv(d) && AllByOverlay(edits) {
        StepKeepsInv(RunEdits(d, edits, n - 1), Do(edits[n - 1]));
      }
    }
  }

  function Gesture(d: Document, edits: seq<Edit>): Document {
    RunEdits(Begun(d), edits, |edits|)
  }

  /** Discarding a gesture brings back the annotations it began with, whatever it did; it costs the redo
      stack, and the oldest undo state if the history was full. */
  lemma DiscardRestores(d: Document, edits: seq<Edit>)
    requires |d.undo| <= HISTORY_LIMIT
    ensures var after := Discarded(Gesture(d, edits));
      && after.annotations == d.annotations && after.redo == [] && !after.open
      && after.undo == if |d.undo| < HISTORY_LIMIT then d.undo else d.undo[1..]
  {
    EditsKeepStacks(Begun(d), edits, |edits|);
    assert Last(Begun(d).undo) == d.annotations;
  }

  lemma DiscardKeepsHistoryIff(d: Document, edits: seq<Edit>)
    requires |d.undo| <= HISTORY_LIMIT
    ensures var after := Discarded(Gesture(d, edits));
      Timeline(after) == Timeline(d) <==> d.redo == [] && |d.undo| < HISTORY_LIMIT
  {
    DiscardRestores(d, edits);
    assert |Timeline(d)| == |d.undo| + 1 + |d.redo|;
  }

  /** A finished gesture is one undo step: undoing it brings back what it began with, redoing it what it made. */
  lemma GestureIsOneStep(d: Document, edits: seq<Edit>)
    requires Inv(d) && AllByOverlay(edits)
    ensures var done := Gesture(d, edits).(open := false);
      Undone(done).annotations == d.annotations && Redone(Undone(done)).annotations == done.annotations
  {
    StepKeepsInv(d, Begin);
    EditsKeepStacks(Begun(d), edits, |edits|);
    var done := Gesture(d, edits).(open := false);
    UndoneParts(done);
    assert Last(Begun(d).undo) == d.annotations;
    RedoAfterUndo(done, 0);
  }

  // ---- the crop drag ----

  predicate OnlyCrops(edits: seq<Edit>) {
    forall i :: 0 <= i < |edits| ==> edits[i].SetCrop?
  }

  lemma {:induction false} CropsKeepAnnotations(d: Document, edits: seq<Edit>, n: nat)
    requires n <= |edits| && OnlyCrops(edits)
    ensures RunEdits(d, edits, n).annotations == d.annotations
  {
    if n > 0 {
      CropsKeepAnnotations(d, edits, n - 1);
    }
  }

  /** A crop drag begins no interaction, yet Escape discards one: the timeline survives exactly if there is
      nothing to undo. */
  lemma CropEscapeKeepsTimelineIff(d: Document, edits: seq<Edit>)
    requires OnlyCrops(edits)
    ensures Timeline(Discarded(RunEdits(d, edits, |edits|))) == Timeline(d) <==> d.undo == []
  {
    CropStacks(d, edits);
    assert |Timeline(d)| == |d.undo| + 1 + |d.redo|;
  }

  lemma CropStacks(d: Document, crops: seq<Edit>)
    requires OnlyCrops(crops)
    ensures var dragged := RunEdits(d, crops, |crops|);
      dragged.annotations == d.annotations && dragged.undo == d.undo && dragged.redo == d.redo
  {
    EditsKeepStacks(d, crops, |crops|);
    CropsKeepAnnotations(d, crops, |crops|);
  }

  lemma CropEscapePops(d: Document, crops: seq<Edit>)
    requires OnlyCrops(crops) && d.undo != []
    ensures var dragged := RunEdits(d, crops, |crops|);
      && dragged.annotations == d.annotations
      && Discarded(dragged) == dragged.(annotations := Last(d.undo), undo := Front(d.undo), open := false,
                                        generation := dragged.generation + 1)
      && dragged.redo == d.redo
  {
    CropStacks(d, crops);
  }

  lemma GestureStacks(d: Document, edits: seq<Edit>)
    requires |d.undo| <= HISTORY_LIMIT
    ensures var done := Gesture(d, edits);
      && done.redo == [] && done.undo != [] && Last(done.undo) == d.annotations
      && Front(done.undo) == if |d.undo| < HISTORY_LIMIT then d.undo else d.undo[1..]
  {
    EditsKeepStacks(Begun(d), edits, |edits|);
  }

  /** After a finished gesture it is this gesture that Escape reverts, whole, with nothing left to redo it,
      while the crop it was meant for stays as dragged. */
  lemma CropEscapeRevertsGesture(d: Document, edits: seq<Edit>, crops: seq<Edit>)
    requires |d.undo| <= HISTORY_LIMIT && OnlyCrops(crops)
    ensures var dragged := RunEdits(Gesture(d, edits).(open := false), crops, |crops|);
      var after := Discarded(dragged);
      && dragged.annotations == Gesture(d, edits).annotations && after.crop == dragged.crop
      && after.annotations == d.annotations && after.redo == []
      && after.undo == if |d.undo| < HISTORY_LIMIT then d.undo else d.undo[1..]
  {
    GestureStacks(d, edits);
    CropEscapePops(Gesture(d, edits).(open := false), crops);
  }

  lemma RunNext(d: Document, events: seq<Event>, n: nat, before: Document)
    requires n < |events| && Run(d, events, n) == before
    ensures Run(d, events, n + 1) == Step(before, events[n])
  {
  }

  /** One stroke, then an abandoned crop drag: the stroke is gone, and no redo brings it back. */
  lemma CropEscapeLosesAStroke(a: Annotation)
    ensures var events := [Begin, Do(Push(a)), End, Do(SetCrop(None)), Discard];
      && Run(EMPTY, events, 3).annotations == [a]
      && Run(EMPTY, events, 5).annotations == [] && Run(EMPTY, events, 5).redo == []
  {
    var events := [Begin, Do(Push(a)), End, Do(SetCrop(None)), Discard];
    RunNext(EMPTY, events, 0, EMPTY);
    RunNext(EMPTY, events, 1, Document([], [[]], [], None, 0, true));
    RunNext(EMPTY, events, 2, Document([a], [[]], [], None, 1, true));
    RunNext(EMPTY, events, 3, Document([a], [[]], [], None, 1, false));
    RunNext(EMPTY, events, 4, Document([a], [[]], [], None, 2, false));
  }
}
