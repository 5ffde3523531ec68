/** The application wiring: the toolbar handlers that switch between the
    drawing tools and the widget tools, the highlighted toolbar button, the
    clear-all button, window resizing, and the canvas's pointer listeners
    that pass strokes to the canvas module only under the pen and the
    eraser. The text tool is represented by its active flag only. */
module App {
  import opened History
  import opened Notes
  import opened QRCodes
  import opened Timers

  datatype Button = PenButton | EraserButton | TextButton | NotesButton | QRButton | TimerButton

  /** The ring colour class `setActiveToolButton` gives each button. */
  datatype RingColor = Blue700 | Gray700 | Yellow700 | Orange700 | Green700 | Purple700

  function RingColorOf(b: Button): RingColor {
    match b
    case PenButton => Blue700
    case EraserButton => Gray700
    case TextButton => Yellow700
    case NotesButton => Orange700
    case QRButton => Green700
    case TimerButton => Purple700
  }
  /** Every button has a ring colour of its own. */
  lemma RingColorsDistinct(b: Button, c: Button)
    requires b != c
    ensures RingColorOf(b) != RingColorOf(c)
  {
  }


  /** The toolbar button that belongs to a canvas tool. */
  function ButtonOf(t: Tool): (b: Button)
    ensures b != TimerButton
  {
    match t
    case Pen => PenButton
    case Eraser => EraserButton
    case TextTool => TextButton
    case NotesTool => NotesButton
    case QRTool => QRButton
  }

  /** Different tools highlight different buttons. */
  lemma ButtonOfInjective(t: Tool, u: Tool)
    requires t != u
    ensures ButtonOf(t) != ButtonOf(u)
  { }

  /** A canvas pointer event as the application's own listeners see it. */
  datatype PointerEvent =
    MouseDown | MouseMove | MouseUp | MouseLeave | TouchStart | TouchMove | TouchEnd | TouchCancel

  /** The stroke operations of the canvas module. */
  datatype StrokeOp = StartDrawing | Draw | StopDrawing

  function StrokeFor(e: PointerEvent): StrokeOp {
    match e
    case MouseDown => StartDrawing
    case TouchStart => StartDrawing
    case MouseMove => Draw
    case TouchMove => Draw
    case _ => StopDrawing
  }

  predicate IsDrawingTool(t: Tool) {
    t == Pen || t == Eraser
  }

  /** What the application's canvas listener for `e` does under tool `t`:
      the stroke operation for the event under the pen or the eraser, and
      nothing under any other tool. */
  function Route(t: Tool, e: PointerEvent): (r: Option<StrokeOp>)
    ensures r.Some? <==> IsDrawingTool(t)
    ensures r.Some? ==> r.value == StrokeFor(e)
  {
    if IsDrawingTool(t) then Some(StrokeFor(e)) else None
  }

  /** Every pointer event gets its stroke operation under the pen and the
      eraser: presses start, moves draw, and releases, leaving and
      cancelled touches stop. */
  lemma RouteUnderDrawingTools(e: PointerEvent)
    ensures Route(Pen, e) == Route(Eraser, e) == Some(StrokeFor(e))
    ensures (e == MouseDown || e == TouchStart) <==> StrokeFor(e) == StartDrawing
    ensures (e == MouseMove || e == TouchMove) <==> StrokeFor(e) == Draw
  {
  }

  class App {
    const canvas: Canvas
    const notes: NotesModule
    const qr: QRCodeModule
    const timer: TimerModule
    var textToolActive: bool
    var activeToolButton: Button
    /** The buttons carrying a ring, with their ring colour. */
    var rings: map<Button, RingColor>

    /** The widget modules share the canvas and are each consistent; exactly
        the widget tool that is the current tool is active (none under the
        pen and the eraser); the QR panel is shown only while its tool is
        active and placement happens only with the panel shown; only a note
        tool that is active drags; and only the current tool's button is
        highlighted, in its own colour. */
    ghost predicate Valid()
      reads this, canvas, notes, qr, timer
    {
      notes.canvas == canvas && qr.canvas == canvas
      && notes.Valid() && qr.Valid() && timer.Valid()
      && (textToolActive <==> canvas.currentTool == TextTool)
      && (notes.active <==> canvas.currentTool == NotesTool)
      && (qr.active <==> canvas.currentTool == QRTool)
      && (qr.isVisible ==> qr.active) && (qr.placing ==> qr.isVisible)
      && (notes.isDragging ==> notes.active)
      && activeToolButton == ButtonOf(canvas.currentTool)
      && rings == map[activeToolButton := RingColorOf(activeToolButton)]
    }

    /** Start-up: the modules are created over one canvas, the pen is the
        tool and its button is highlighted. */
    constructor ()
      ensures Valid() && fresh(canvas) && fresh(notes) && fresh(qr) && fresh(timer)
      ensures canvas.currentTool == Pen && canvas.drawingHistory == []
      ensures rings == map[PenButton := Blue700]
    {
      var c := new Canvas();
      canvas := c;
      notes := new NotesModule(c);
      qr := new QRCodeModule(c);
      timer := new TimerModule();
      textToolActive := false;
      activeToolButton := PenButton;
      rings := map[PenButton := Blue700];
    }

    /** `setActiveToolButton`: the previous button loses its ring and the
        new one gets its own colour. */
    method SetActiveToolButton(b: Button)
      requires rings.Keys == {activeToolButton}
      modifies this`activeToolButton, this`rings
      ensures activeToolButton == b && rings == map[b := RingColorOf(b)]
    {
      rings := rings - {activeToolButton};
      assert rings == map[];
      rings := rings[b := RingColorOf(b)];
      activeToolButton := b;
    }

    /** The pen and the eraser buttons: every widget tool is switched off. */
    method DrawingToolClicked(t: Tool)
      requires Valid() && IsDrawingTool(t)
      modifies this`textToolActive, this`activeToolButton, this`rings, canvas`currentTool
      modifies notes`active, notes`selectedNote, notes`isDragging
      modifies qr`active, qr`isVisible, qr`placing
      ensures Valid() && canvas.currentTool == t
      ensures !textToolActive && !notes.active && !qr.active && !qr.isVisible && !qr.placing
      ensures notes.selectedNote == None && !notes.isDragging
      ensures rings == map[ButtonOf(t) := RingColorOf(ButtonOf(t))]
    {
      textToolActive := false;
      notes.Deactivate();
      qr.Deactivate();
      canvas.SetTool(t);
      SetActiveToolButton(ButtonOf(t));
    }

    method TextClicked()
      requires Valid()
      modifies this`textToolActive, this`activeToolButton, this`rings, canvas`currentTool
      modifies notes`active, notes`selectedNote, notes`isDragging
      modifies qr`active, qr`isVisible, qr`placing
      ensures Valid() && canvas.currentTool == TextTool
      ensures textToolActive && !notes.active && !qr.active
      ensures notes.selectedNote == None && !notes.isDragging
      ensures rings == map[TextButton := Yellow700]
    {
      notes.Deactivate();
      qr.Deactivate();
      canvas.SetTool(TextTool);
      textToolActive := true;
      SetActiveToolButton(TextButton);
    }

    method NotesClicked()
      requires Valid()
      modifies this`textToolActive, this`activeToolButton, this`rings, canvas`currentTool
      modifies notes`active, qr`active, qr`isVisible, qr`placing
      ensures Valid() && canvas.currentTool == NotesTool
      ensures !textToolActive && notes.active && !qr.active
      ensures rings == map[NotesButton := Orange700]
    {
      textToolActive := false;
      qr.Deactivate();
      canvas.SetTool(NotesTool);
      notes.Activate();
      SetActiveToolButton(NotesButton);
    }

    /** The QR button: the QR tool becomes active and its panel is shown;
        a placement already under way stays under way. */
    method QRClicked()
      requires Valid()
      modifies this`textToolActive, this`activeToolButton, this`rings, canvas`currentTool
      modifies notes`active, notes`selectedNote, notes`isDragging, qr`active, qr`isVisible
      ensures Valid() && canvas.currentTool == QRTool
      ensures !textToolActive && !notes.active && qr.active && qr.isVisible
      ensures notes.selectedNote == None && !notes.isDragging
      ensures rings == map[QRButton := Green700]
    {
      textToolActive := false;
      notes.Deactivate();
      canvas.SetTool(QRTool);
      qr.Activate();
      SetActiveToolButton(QRButton);
    }

    /** The timer button only shows or hides the timer panel: the tool and
        the highlighted button stay as they were. */
    method TimerClicked()
      requires Valid()
      modifies timer`isVisible
      ensures Valid() && timer.isVisible == !old(timer.isVisible)
    {
      timer.Toggle();
    }

    /** The QR panel's close button. */
    method QRPanelClosed()
      requires Valid()
      modifies qr`isVisible, qr`placing
      ensures Valid() && !qr.isVisible && !qr.placing
    {
      qr.Hide();
    }

    /** The QR panel's generate button, which can only be clicked while the
        panel is shown. */
    method QRGenerateClicked(input: string)
      requires Valid() && qr.isVisible
      modifies qr`placing
      ensures Valid()
      ensures qr.placing <==> old(qr.placing) || !Strings.IsBlank(input)
    {
      qr.PrepareForPlacement(input);
    }

    /** The clear button: the history and both registries are emptied, but
        the id counters carry on, so no id is ever handed out twice (an open
        editor or a stale selection can never reach a newer note). */
    method ClearCanvas()
      requires Valid()
      modifies canvas`drawingHistory, notes`notes, qr`qrCodes
      ensures Valid()
      ensures canvas.drawingHistory == [] && notes.notes == [] && qr.qrCodes == []
      ensures notes.nextId == old(notes.nextId) && qr.nextId == old(qr.nextId)
    {
      canvas.ClearCanvas();
      notes.notes := [];
      qr.qrCodes := [];
    }

    /** Window resize: the canvas is redrawn and the tool is kept. */
    method Resize()
      requires Valid()
      modifies canvas`currentTool
      ensures Valid() && canvas.currentTool == old(canvas.currentTool)
    {
      if canvas.currentTool == Eraser {
        canvas.SetTool(Eraser);
      }
    }

    /** A pointer event that only the application's own listener handles
        (mouse leave and all touch events). */
    method CanvasPointer(e: PointerEvent) returns (stroke: Option<StrokeOp>)
      requires Valid()
      ensures stroke == Route(canvas.currentTool, e)
    {
      stroke := Route(canvas.currentTool, e);
    }

    /** Mouse down on the canvas: a stroke starts under the pen or the
        eraser; under the notes tool a note may be picked up. */
    method CanvasMouseDown(x: real, y: real) returns (stroke: Option<StrokeOp>)
      requires Valid()
      modifies notes`selectedNote, notes`isDragging, notes`dragOffset
      ensures Valid() && stroke == Route(canvas.currentTool, MouseDown)
      ensures canvas.currentTool != NotesTool || NoteAt(notes.notes, x, y).None? ==>
        notes.selectedNote == old(notes.selectedNote) && notes.isDragging == old(notes.isDragging)
        && notes.dragOffset == old(notes.dragOffset)
      ensures canvas.currentTool == NotesTool && NoteAt(notes.notes, x, y).Some? ==>
        var n := NoteAt(notes.notes, x, y).value;
        notes.selectedNote == Some(n.id) && notes.isDragging && notes.dragOffset == GrabOffset(n, x, y)
    {
      stroke := CanvasPointer(MouseDown);
      notes.HandleCanvasMouseDown(x, y);
    }

    method CanvasMouseMove(x: real, y: real) returns (stroke: Option<StrokeOp>)
      requires Valid()
      modifies notes`notes
      ensures Valid() && stroke == Route(canvas.currentTool, MouseMove)
      ensures canvas.currentTool != NotesTool || !notes.isDragging ==> notes.notes == old(notes.notes)
      ensures canvas.currentTool == NotesTool && notes.isDragging ==>
        var c := DragCorner(x, y, notes.dragOffset);
        notes.notes == MoveNote(old(notes.notes), notes.selectedNote.value, c.0, c.1)
    {
      stroke := CanvasPointer(MouseMove);
      notes.HandleCanvasMouseMove(x, y);
    }

    method CanvasMouseUp() returns (stroke: Option<StrokeOp>)
      requires Valid()
      modifies notes`isDragging, canvas`drawingHistory
      ensures Valid() && stroke == Route(canvas.currentTool, MouseUp)
      ensures canvas.currentTool != NotesTool || !old(notes.isDragging) ==>
        notes.isDragging == old(notes.isDragging) && canvas.drawingHistory == old(canvas.drawingHistory)
      ensures canvas.currentTool == NotesTool && old(notes.isDragging) ==>
        !notes.isDragging
        && var j := FindNote(notes.notes, notes.selectedNote.value);
        canvas.drawingHistory ==
          if j == -1 then old(canvas.drawingHistory)
          else PatchNoteRecord(old(canvas.drawingHistory), notes.notes[j])
    {
      stroke := CanvasPointer(MouseUp);
      ghost var h := canvas.drawingHistory;
      notes.HandleCanvasMouseUp();
      QRRecordsOfNonNote(h);
      QRRecordsOfNonNote(canvas.drawingHistory);
    }

    /** A click on the canvas reaches the notes tool when it is the tool and
        the QR tool when it is placing, never both; under the other tools it
        changes nothing. `input`, `size` and `outcome` are the QR panel's
        text, its size slider and how the image step ends. */
    method CanvasClick(x: real, y: real, input: string, size: int, outcome: FetchOutcome)
      returns (editing: Option<int>)
      requires Valid()
      modifies notes`notes, notes`nextId, qr`qrCodes, qr`nextId, qr`placing, canvas`drawingHistory
      ensures Valid()
      ensures canvas.currentTool != NotesTool ==>
        editing == None && notes.notes == old(notes.notes) && notes.nextId == old(notes.nextId)
      ensures canvas.currentTool == NotesTool && notes.isDragging ==>
        editing == None && notes.notes == old(notes.notes) && notes.nextId == old(notes.nextId)
        && canvas.drawingHistory == old(canvas.drawingHistory)
      ensures canvas.currentTool == NotesTool && !notes.isDragging && NoteAt(old(notes.notes), x, y).Some? ==>
        editing == Some(NoteAt(old(notes.notes), x, y).value.id)
        && notes.notes == old(notes.notes) && notes.nextId == old(notes.nextId)
        && canvas.drawingHistory == old(canvas.drawingHistory)
      ensures canvas.currentTool == NotesTool && !notes.isDragging && NoteAt(old(notes.notes), x, y).None? ==>
        var n := NewNote(old(notes.nextId), x, y);
        editing == Some(n.id) && notes.notes == old(notes.notes) + [n] && notes.nextId == old(notes.nextId) + 1
        && canvas.drawingHistory == old(canvas.drawingHistory) + [NoteRecord(n)]
      ensures !old(qr.placing) ==>
        qr.qrCodes == old(qr.qrCodes) && qr.nextId == old(qr.nextId) && qr.placing == old(qr.placing)
      ensures !old(qr.placing) && canvas.currentTool != NotesTool ==>
        canvas.drawingHistory == old(canvas.drawingHistory)
      ensures old(qr.placing) && Strings.IsBlank(input) ==>
        qr.qrCodes == old(qr.qrCodes) && qr.nextId == old(qr.nextId) && qr.placing
        && canvas.drawingHistory == old(canvas.drawingHistory)
      ensures old(qr.placing) && !Strings.IsBlank(input) ==>
        var q := PlacedQR(old(qr.nextId), x, y, Strings.Trim(input), size, outcome);
        qr.qrCodes == old(qr.qrCodes) + [q] && qr.nextId == old(qr.nextId) + 1 && !qr.placing
        && canvas.drawingHistory == old(canvas.drawingHistory) + [QRRecord(q)]
    {
      ghost var h := canvas.drawingHistory;
      editing := notes.HandleCanvasClick(x, y);
      QRRecordsOfNonNote(h);
      QRRecordsOfNonNote(canvas.drawingHistory);
      if qr.placing {
        assert canvas.drawingHistory == h;
        qr.HandleCanvasClick(x, y, input, size, outcome);
      }
    }
  }

  /** In a consistent application at most one widget tool is active, it is
      the current tool, and the pen and the eraser leave none active. */
  lemma ToolsExclusive(a: App)
    requires a.Valid()
    ensures !(a.textToolActive && a.notes.active) && !(a.textToolActive && a.qr.active)
      && !(a.notes.active && a.qr.active)
    ensures IsDrawingTool(a.canvas.currentTool) ==> !a.textToolActive && !a.notes.active && !a.qr.active
  {
  }
}
