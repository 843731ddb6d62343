/** src/capture/annotation_document.cpp: annotations, their numbering labels, and the two history stacks. */
module AnnotationHistory {
  import opened Wrappers
  import opened DecimalText

  // ---- annotations ----

  datatype Tool = Move | Brush | Highlighter | Line | Arrow | Rectangle | Circle | Text | Numbering | Blur | Eraser
    | Crop

  datatype Spot = Spot(x: real, y: real)

  datatype Color = Color(r: real, g: real, b: real, a: real)

  datatype Annotation = Annotation(tool: Tool, width: real, stroke: Color, fill: Color, points: seq<Spot>, text: string)

  datatype Rect = Rect(x: real, y: real, width: real, height: real)

  /** How many of the first `n` annotations carry a number. */
  function Numbers(list: seq<Annotation>, n: nat): (count: nat)
    requires n <= |list|
    ensures count <= n
  {
    if n == 0 then 0 else Numbers(list, n - 1) + (if list[n - 1].tool.Numbering? then 1 else 0)
  }

  function Relabel(list: seq<Annotation>, i: nat): Annotation
    requires i < |list|
  {
    if list[i].tool.Numbering? then list[i].(text := Decimal(Numbers(list, i) + 1)) else list[i]
  }

  /** The list with its numbers relabelled 1..n in list order. */
  function Renumbered(list: seq<Annotation>): (r: seq<Annotation>)
    ensures |r| == |list|
  {
    seq(|list|, i requires 0 <= i < |list| => Relabel(list, i))
  }

  predicate LabelAt(list: seq<Annotation>, i: nat)
    requires i < |list|
  {
    list[i].tool.Numbering? ==> list[i].text == Decimal(Numbers(list, i) + 1)
  }

  /** The numbers read 1..n in list order. */
  predicate Labelled(list: seq<Annotation>) {
    forall i :: 0 <= i < |list| ==> LabelAt(list, i)
  }

  lemma SameLabel(a: seq<Annotation>, i: nat, b: seq<Annotation>, j: nat)
    requires i < |a| && j < |b| && a[i].tool == b[j].tool && (a[i].tool.Numbering? ==> a[i].text == b[j].text)
    requires Numbers(a, i) == Numbers(b, j)
    ensures LabelAt(a, i) <==> LabelAt(b, j)
  {
  }

  lemma {:induction false} NumbersAgree(a: seq<Annotation>, b: seq<Annotation>, n: nat)
    requires n <= |a| && n <= |b| && forall i :: 0 <= i < n ==> a[i].tool == b[i].tool
    ensures Numbers(a, n) == Numbers(b, n)
  {
    if n > 0 {
      NumbersAgree(a, b, n - 1);
    }
  }

  lemma RenumberedIsLabelled(list: seq<Annotation>)
    ensures Labelled(Renumbered(list))
  {
    forall i | 0 <= i < |list| ensures LabelAt(Renumbered(list), i) {
      NumbersAgree(Renumbered(list), list, i);
    }
  }

  /** Relabelling changes nothing exactly when the labels are already right. */
  lemma RenumberIsIdleIff(list: seq<Annotation>)
    ensures Renumbered(list) == list <==> Labelled(list)
  {
    RenumberedIsLabelled(list);
    if Labelled(list) {
      forall i | 0 <= i < |list| ensures Renumbered(list)[i] == list[i] {
        assert LabelAt(list, i);
      }
    }
  }

  lemma PushLabels(list: seq<Annotation>, a: Annotation, i: nat)
    requires i <= |list|
    ensures i < |list| ==> (LabelAt(list + [a], i) <==> LabelAt(list, i))
    ensures Numbers(list + [a], i) == Numbers(list, i)
  {
    NumbersAgree(list + [a], list, i);
  }

  predicate Continues(list: seq<Annotation>, a: Annotation) {
    a.tool.Numbering? ==> a.text == Decimal(Numbers(list, |list|) + 1)
  }

  lemma PushedLabel(list: seq<Annotation>, a: Annotation)
    ensures LabelAt(list + [a], |list|) <==> Continues(list, a)
  {
    PushLabels(list, a, |list|);
    assert (list + [a])[|list|] == a;
  }

  lemma LabelledByLast(list: seq<Annotation>, n: nat)
    requires |list| == n + 1 && forall i :: 0 <= i < n ==> LabelAt(list, i)
    ensures Labelled(list) <==> LabelAt(list, n)
  {
  }

  /** Pushing keeps the labels right exactly if a pushed number continues the count. */
  lemma PushKeepsLabelsIff(list: seq<Annotation>, a: Annotation)
    requires Labelled(list)
    ensures Labelled(list + [a]) <==> Continues(list, a)
  {
    forall i | 0 <= i < |list| ensures LabelAt(list + [a], i) {
      assert LabelAt(list, i);
      PushLabels(list, a, i);
    }
    PushedLabel(list, a);
    LabelledByLast(list + [a], |list|);
  }

  lemma EditKeepsLabels(list: seq<Annotation>, i: nat, a: Annotation)
    requires Labelled(list) && i < |list| && a.tool == list[i].tool && (a.tool.Numbering? ==> a.text == list[i].text)
    ensures Labelled(list[i := a])
  {
    var edited := list[i := a];
    forall j | 0 <= j < |edited| ensures LabelAt(edited, j) {
      assert LabelAt(list, j);
      NumbersAgree(edited, list, j);
      SameLabel(edited, j, list, j);
    }
  }

  lemma {:induction false} NumbersWithout(list: seq<Annotation>, index: nat, n: nat)
    requires index < |list| && n < |list|
    ensures Numbers(DropAt(list, index), n) ==
            if n <= index then Numbers(list, n)
              else Numbers(list, n + 1) - (if list[index].tool.Numbering? then 1 else 0)
  {
    if n > 0 {
      NumbersWithout(list, index, n - 1);
      assert DropAt(list, index)[n - 1] == if n <= index then list[n - 1] else list[n];
    }
  }

  /** A number that follows an erased number is off by one. */
  lemma StaleLabel(list: seq<Annotation>, index: nat, j: nat)
    requires Labelled(list) && index < j < |list| && list[index].tool.Numbering? && list[j].tool.Numbering?
    ensures !LabelAt(DropAt(list, index), j - 1)
  {
    NumbersWithout(list, index, j - 1);
    assert LabelAt(list, j);
    if Decimal(Numbers(list, j) + 1) == Decimal(Numbers(list, j)) {
      DecimalInjective(Numbers(list, j) + 1, Numbers(list, j));
    }
  }

  /** Erasing one annotation without relabelling breaks the labels exactly when a number is erased and
      another number follows it. */
  lemma EraseKeepsLabelsIff(list: seq<Annotation>, index: nat)
    requires Labelled(list) && index < |list|
    ensures Labelled(DropAt(list, index)) <==>
            !(list[index].tool.Numbering? && exists j :: index < j < |list| && list[j].tool.Numbering?)
  {
    if list[index].tool.Numbering? && exists j :: index < j < |list| && list[j].tool.Numbering? {
      var j :| index < j < |list| && list[j].tool.Numbering?;
      StaleLabel(list, index, j);
    } else {
      forall i | 0 <= i < |list| - 1 ensures LabelAt(DropAt(list, index), i) {
        var from := if i < index then i else i + 1;
        assert DropAt(list, index)[i] == list[from] && LabelAt(list, from);
        NumbersWithout(list, index, i);
        if list[from].tool.Numbering? {
          SameLabel(DropAt(list, index), i, list, from);
        }
      }
    }
  }

  /** What an eraser stroke leaves of the first `n` annotations. */
  function Kept(list: seq<Annotation>, hit: Annotation -> bool, n: nat): (r: seq<Annotation>)
    requires n <= |list|
    ensures |r| <= n
  {
    if n == 0 then [] else Kept(list, hit, n - 1) + (if hit(list[n - 1]) then [] else [list[n - 1]])
  }

  lemma {:induction false} KeptAll(list: seq<Annotation>, hit: Annotation -> bool, n: nat)
    requires n <= |list| && |Kept(list, hit, n)| == n
    ensures Kept(list, hit, n) == list[..n]
  {
    if n > 0 {
      KeptAll(list, hit, n - 1);
      assert list[..n] == list[..n - 1] + [list[n - 1]];
    }
  }

  /** An eraser stroke takes exactly the annotations it hits. */
  lemma {:induction false} KeptIff(list: seq<Annotation>, hit: Annotation -> bool, n: nat, a: Annotation)
    requires n <= |list|
    ensures a in Kept(list, hit, n) <==> a in list[..n] && !hit(a)
  {
    if n > 0 {
      KeptIff(list, hit, n - 1, a);
      assert list[..n] == list[..n - 1] + [list[n - 1]];
    }
  }

  function Erased(list: seq<Annotation>, hit: Annotation -> bool): seq<Annotation> {
    var kept := Kept(list, hit, |list|);
    if |kept| < |list| then Renumbered(kept) else list
  }

  // ---- the document ----

  const HISTORY_LIMIT: nat := 50

  datatype Document = Document(annotations: seq<Annotation>, undo: seq<seq<Annotation>>, redo: seq<seq<Annotation>>,
                               crop: Option<Rect>, generation: nat, open: bool)

  const EMPTY := Document([], [], [], None, 0, false)

  function Trim(stack: seq<seq<Annotation>>): (r: seq<seq<Annotation>>)
    ensures |r| <= HISTORY_LIMIT
  {
    if |stack| <= HISTORY_LIMIT then stack else stack[|stack| - HISTORY_LIMIT..]
  }

  function Last<T>(s: seq<T>): T
    requires s != []
  {
    s[|s| - 1]
  }

  function Front<T>(s: seq<T>): seq<T>
    requires s != []
  {
    s[..|s| - 1]
  }

  function Begun(d: Document): Document {
    d.(undo := Trim(d.undo + [d.annotations]), redo := [], open := true)
  }

  function Discarded(d: Document): Document {
    if d.undo == [] then d.(open := false)
    else d.(annotations := Last(d.undo), undo := Front(d.undo), generation := d.generation + 1, open := false)
  }

  function Undone(d: Document): Document {
    if d.undo == [] then d
    else d.(annotations := Renumbered(Last(d.undo)), undo := Front(d.undo), redo := Trim(d.redo + [d.annotations]),
            generation := d.generation + 1)
  }

  function Redone(d: Document): Document {
    if d.redo == [] then d
    else d.(annotations := Renumbered(Last(d.redo)), redo := Front(d.redo), undo := Trim(d.undo + [d.annotations]),
            generation := d.generation + 1)
  }

  /** What a gesture does to the document between its beginning and its end. */
  datatype Edit =
    | Push(a: Annotation)
    | PushNumber(a: Annotation)
    | Offset(index: nat, dx: real, dy: real)
    | EraseAlong(hit: Annotation -> bool)
    | Redraw(points: seq<Spot>)
    | Retype(text: string)
    | Restyle(width: real, stroke: Color)
    | SetCrop(crop: Option<Rect>)
    | Touch

  function Moved(points: seq<Spot>, dx: real, dy: real): seq<Spot> {
    seq(|points|, i requires 0 <= i < |points| => Spot(points[i].x + dx, points[i].y + dy))
  }

  function Edited(list: seq<Annotation>, open: bool, e: Edit): seq<Annotation> {
    match e
    case Push(a) => list + [a]
    case PushNumber(a) => list + [a.(tool := Numbering, text := Decimal(Numbers(list, |list|) + 1))]
    case Offset(index, dx, dy) =>
      if index < |list| then list[index := list[index].(points := Moved(list[index].points, dx, dy))] else list
    case EraseAlong(hit) => Erased(list, hit)
    case Redraw(points) => if open && list != [] then list[|list| - 1 := Last(list).(points := points)] else list
    case Retype(text) =>
      if open && list != [] && Last(list).tool.Text? then list[|list| - 1 := Last(list).(text := text)] else list
    case Restyle(width, stroke) =>
      if open && list != [] && Last(list).tool.Text? then
        list[|list| - 1 := Last(list).(width := width, stroke := stroke)]
      else list
    case SetCrop(_) => list
    case Touch => list
  }

  /** How far an edit moves the generation counter. */
  function Bump(list: seq<Annotation>, e: Edit): nat {
    match e
    case Push(_) => 1
    case PushNumber(_) => 1
    case Offset(index, _, _) => if index < |list| then 1 else 0
    case EraseAlong(hit) => if |Kept(list, hit, |list|)| < |list| then 1 else 0
    case Redraw(_) => 0
    case Retype(_) => 0
    case Restyle(_, _) => 0
    case SetCrop(_) => 1
    case Touch => 1
  }

  /** The stacks, and whether a gesture is open, are no business of an edit. */
  function AfterEdit(d: Document, e: Edit): Document {
    d.(annotations := Edited(d.annotations, d.open, e), crop := if e.SetCrop? then e.crop else d.crop,
       generation := d.generation + Bump(d.annotations, e))
  }

  function Cleared(d: Document): Document {
    EMPTY.(generation := d.generation + 1)
  }
}
