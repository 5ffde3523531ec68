/** The sticky-note tool: a registry of notes, the mouse handlers that
    create, select and drag them, the text editor's commit step, and the
    'note' records it keeps in the shared drawing history. */
module Notes {
  import opened History
  import opened Strings

  /** The note `createNote` makes at `(x, y)`: 120 by 80, empty text, yellow
      background, black 14px Arial text. */
  function NewNote(id: int, x: real, y: real): (n: Note)
    ensures n.id == id && n.x == x && n.y == y && n.width == 120.0 && n.height == 80.0
    ensures n.text == "" && IsBlank(n.text)
    ensures n.color == "#ffeb3b" && n.textColor == "#000000"
    ensures n.fontSize == 14 && n.fontFamily == "Arial"
  {
    Note(id, x, y, 120.0, 80.0, "", "#ffeb3b", "#000000", 14, "Arial")
  }

  /** The hit test of `getNoteAtPosition`: the closed box of the note. */
  predicate Contains(n: Note, x: real, y: real) {
    x >= n.x && x <= n.x + n.width && y >= n.y && y <= n.y + n.height
  }

  /** The index of the note drawn on top at `(x, y)`: the last note in the
      list whose box contains the point, or None. */
  function TopmostIndex(ns: seq<Note>, x: real, y: real): (r: Option<nat>)
    ensures r.None? <==> forall k :: 0 <= k < |ns| ==> !Contains(ns[k], x, y)
    ensures r.Some? ==> (r.value < |ns| && Contains(ns[r.value], x, y)
      && forall k :: r.value < k < |ns| ==> !Contains(ns[k], x, y))
  {
    if ns == [] then None
    else if Contains(ns[|ns| - 1], x, y) then Some(|ns| - 1)
    else TopmostIndex(ns[..|ns| - 1], x, y)
  }

  /** The note (if any) at the top at `(x, y)`. */
  function NoteAt(ns: seq<Note>, x: real, y: real): Option<Note> {
    match TopmostIndex(ns, x, y)
    case None => None
    case Some(k) => Some(ns[k])
  }

  predicate DistinctIds(ns: seq<Note>) {
    forall i, j :: 0 <= i < j < |ns| ==> ns[i].id != ns[j].id
  }

  /** `notes.findIndex(n => n.id === id)`. */
  function FindNote(ns: seq<Note>, id: int): (r: int)
    ensures -1 <= r < |ns|
    ensures r == -1 <==> forall k :: 0 <= k < |ns| ==> ns[k].id != id
    ensures r >= 0 ==> ns[r].id == id && forall k :: 0 <= k < r ==> ns[k].id != id
  {
    if ns == [] then -1
    else if ns[0].id == id then 0
    else
      var r := FindNote(ns[1..], id);
      if r == -1 then -1 else r + 1
  }

  /** Two lists with the same ids in the same order find an id at the same
      index. */
  lemma FindNoteSameIds(a: seq<Note>, b: seq<Note>, id: int)
    requires NoteIds(a) == NoteIds(b)
    ensures FindNote(a, id) == FindNote(b, id)
  {
    var i, j := FindNote(a, id), FindNote(b, id);
    assert |a| == |b|;
    assert forall k :: 0 <= k < |a| ==> a[k].id == NoteIds(a)[k] == b[k].id;
  }

  /** In a list with distinct ids, the note at index `k` is found by its id. */
  lemma FindNoteAt(ns: seq<Note>, k: nat)
    requires DistinctIds(ns) && k < |ns|
    ensures FindNote(ns, ns[k].id) == k
  {
  }

  /** `deleteNote`'s first half: the note with that id is spliced out of
      the list, and a list without it is returned unchanged. */
  function RemoveNote(ns: seq<Note>, id: int): seq<Note> {
    var j := FindNote(ns, id);
    if j == -1 then ns else RemoveAt(ns, j)
  }

  /** Deleting an id the first note does not carry keeps that note in front. */
  lemma RemoveNoteUnfold(ns: seq<Note>, id: int)
    requires ns != [] && ns[0].id != id
    ensures RemoveNote(ns, id) == [ns[0]] + RemoveNote(ns[1..], id)
  {
    var j, t := FindNote(ns, id), ns[1..];
    if j == -1 {
      assert ns == [ns[0]] + t;
    } else {
      assert FindNote(t, id) == j - 1;
      RemoveAtTail(ns, j);
    }
  }

  /** The ids of `RemoveNote(ns, id)` are those of `ns` with the first `id`
      removed: the registry and the history lose the same entry. */
  lemma {:induction false} RemoveNoteIds(ns: seq<Note>, id: int)
    ensures NoteIds(RemoveNote(ns, id)) == RemoveFirst(NoteIds(ns), id)
  {
    if ns != [] {
      var t := ns[1..];
      assert ns == [ns[0]] + t;
      NoteIdsAppend([ns[0]], t);
      if ns[0].id == id {
        assert RemoveNote(ns, id) == t;
      } else {
        RemoveNoteUnfold(ns, id);
        RemoveNoteIds(t, id);
        NoteIdsAppend([ns[0]], RemoveNote(t, id));
      }
    }
  }

  /** Removing a note keeps the other notes and their order, and drops
      exactly the note with that id when the ids are distinct. */
  lemma RemoveNoteContents(ns: seq<Note>, id: int)
    requires DistinctIds(ns)
    ensures DistinctIds(RemoveNote(ns, id))
    ensures forall m :: m in RemoveNote(ns, id) <==> m in ns && m.id != id
  {
    var r := RemoveNote(ns, id);
    var j := FindNote(ns, id);
    if j != -1 {
      forall m
        ensures m in r <==> m in ns && m.id != id
      {
        if m in r {
          var k :| 0 <= k < |r| && r[k] == m;
          if k < j { assert ns[k] == m; } else { assert ns[k + 1] == m; }
        }
        if m in ns && m.id != id {
          var k :| 0 <= k < |ns| && ns[k] == m;
          if k < j { assert r[k] == m; } else { assert r[k - 1] == m; }
        }
      }
    }
  }

  /** The dragged note (found by id) moved so that its top-left corner is
      at `(nx, ny)`; a missing id leaves the list unchanged. */
  function MoveNote(ns: seq<Note>, id: int, nx: real, ny: real): (r: seq<Note>)
    ensures NoteIds(r) == NoteIds(ns)
  {
    var j := FindNote(ns, id);
    if j == -1 then ns else ns[j := ns[j].(x := nx, y := ny)]
  }

  /** Moving a note keeps the registry consistent. Since ids are distinct,
      the note carrying `id` is the only one touched: it gets the corner
      `(nx, ny)` and keeps every other field, and every other note is kept
      in its place. */
  lemma MoveKeepsConsistent(ns: seq<Note>, h: seq<Record>, nextId: int, id: int, nx: real, ny: real)
    requires Consistent(ns, h, nextId)
    ensures Consistent(MoveNote(ns, id, nx, ny), h, nextId)
    ensures var r := MoveNote(ns, id, nx, ny);
      |r| == |ns|
      && forall k :: 0 <= k < |ns| ==>
        r[k].(x := ns[k].x, y := ns[k].y) == ns[k]
        && (ns[k].id == id ==> r[k].x == nx && r[k].y == ny)
        && (ns[k].id != id ==> r[k] == ns[k])
  {
    var j := FindNote(ns, id);
    if j != -1 {
      ReplaceKeepsConsistent(ns, h, nextId, j, ns[j].(x := nx, y := ny));
    }
  }

  /** Where in note `n` a press at `(x, y)` grabbed it. */
  function GrabOffset(n: Note, x: real, y: real): (r: (real, real))
    ensures n.x + r.0 == x && n.y + r.1 == y
  {
    (x - n.x, y - n.y)
  }

  /** The corner a dragged note takes when the pointer is at `(x, y)` and
      it was grabbed at `offset` from its corner. */
  function DragCorner(x: real, y: real, offset: (real, real)): (c: (real, real))
    ensures c.0 + offset.0 == x && c.1 + offset.1 == y
  {
    (x - offset.0, y - offset.1)
  }

  /** Moving the pointer back to where the drag started puts the note back
      where it was: with the drag offset of a press at `(px, py)`, a move
      to `(px, py)` is the identity. */
  lemma MoveToPressPoint(ns: seq<Note>, k: nat, px: real, py: real)
    requires DistinctIds(ns) && k < |ns|
    ensures var g := GrabOffset(ns[k], px, py);
      MoveNote(ns, ns[k].id, px - g.0, py - g.1) == ns
  {
    FindNoteAt(ns, k);
  }

  /** A drag moves the note by exactly the pointer's displacement. */
  lemma DragDisplacement(ns: seq<Note>, k: nat, px: real, py: real, qx: real, qy: real)
    requires DistinctIds(ns) && k < |ns|
    ensures var g := GrabOffset(ns[k], px, py);
      var r := MoveNote(ns, ns[k].id, qx - g.0, qy - g.1);
      |r| == |ns| && r[k].x == ns[k].x + (qx - px) && r[k].y == ns[k].y + (qy - py)
      && forall i :: 0 <= i < |ns| && i != k ==> r[i] == ns[i]
  {
    FindNoteAt(ns, k);
  }

  /** The registry invariant over a note list, a history and the id
      counter: ids distinct and below the counter, and the note records of
      the history carrying the ids of the list in the same order. */
  predicate Consistent(ns: seq<Note>, h: seq<Record>, nextId: int) {
    DistinctIds(ns)
    && (forall k :: 0 <= k < |ns| ==> ns[k].id < nextId)
    && NoteIds(NoteRecords(h)) == NoteIds(ns)
  }

  /** Deleting a note keeps every remaining id below a bound. */
  lemma RemoveNoteKeepsBound(ns: seq<Note>, id: int, bound: int)
    requires forall k :: 0 <= k < |ns| ==> ns[k].id < bound
    ensures forall k :: 0 <= k < |RemoveNote(ns, id)| ==> RemoveNote(ns, id)[k].id < bound
  {
    var j := FindNote(ns, id);
    if j != -1 {
      var r := RemoveAt(ns, j);
      forall k | 0 <= k < |r|
        ensures r[k].id < bound
      {
        if k < j { assert r[k] == ns[k]; } else { assert r[k] == ns[k + 1]; }
      }
    }
  }

  /** An id that is in neither the list nor (therefore) the history is
      deleted from neither. */
  lemma RemoveAbsentNote(ns: seq<Note>, h: seq<Record>, id: int)
    requires NoteIds(NoteRecords(h)) == NoteIds(ns) && FindNote(ns, id) == -1
    ensures RemoveNote(ns, id) == ns && RemoveNoteRecord(h, id) == h
  {
    NoNoteRecordIff(h, id);
    assert id !in NoteIds(ns);
  }

  /** Deleting by id from both the list and the history keeps them
      consistent and touches no other kind of record; an id not in the list
      is not in the history either. */
  lemma DeleteKeepsConsistent(ns: seq<Note>, h: seq<Record>, nextId: int, id: int)
    requires Consistent(ns, h, nextId)
    ensures Consistent(RemoveNote(ns, id), RemoveNoteRecord(h, id), nextId)
    ensures NonNoteRecords(RemoveNoteRecord(h, id)) == NonNoteRecords(h)
    ensures FindNote(ns, id) == -1 ==> RemoveNote(ns, id) == ns && RemoveNoteRecord(h, id) == h
  {
    RemoveNoteIds(ns, id);
    RemoveNoteContents(ns, id);
    RemoveNoteRecordEffect(h, id);
    RemoveNoteKeepsBound(ns, id, nextId);
    if FindNote(ns, id) == -1 {
      RemoveAbsentNote(ns, h, id);
    }
  }

  /** Adding a note with the counter's id at the end of both the list and
      the history, and advancing the counter, keeps them consistent and
      touches no other kind of record. */
  lemma AppendKeepsConsistent(ns: seq<Note>, h: seq<Record>, nextId: int, n: Note)
    requires Consistent(ns, h, nextId) && n.id == nextId
    ensures Consistent(ns + [n], h + [NoteRecord(n)], nextId + 1)
    ensures NonNoteRecords(h + [NoteRecord(n)]) == NonNoteRecords(h)
  {
    AppendRecordNoteIds(h, NoteRecord(n));
    AppendNoteNonNote(h, n);
    NoteIdsAppend(ns, [n]);
    var r := ns + [n];
    assert forall k :: 0 <= k < |ns| ==> r[k] == ns[k];
  }

  /** Replacing a note by one with the same id keeps the ids, and so the
      invariant and every lookup by id. */
  lemma ReplaceKeepsConsistent(ns: seq<Note>, h: seq<Record>, nextId: int, j: nat, n: Note)
    requires Consistent(ns, h, nextId) && j < |ns| && n.id == ns[j].id
    ensures NoteIds(ns[j := n]) == NoteIds(ns)
    ensures Consistent(ns[j := n], h, nextId)
    ensures forall id :: FindNote(ns[j := n], id) == FindNote(ns, id)
  {
    var r := ns[j := n];
    assert forall k :: 0 <= k < |r| ==> r[k].id == ns[k].id;
    assert NoteIds(r) == NoteIds(ns) by {
      assert forall k :: 0 <= k < |r| ==> NoteIds(r)[k] == NoteIds(ns)[k];
    }
    forall id ensures FindNote(r, id) == FindNote(ns, id) {
      FindNoteSameIds(r, ns, id);
    }
  }

  class NotesModule {
    const canvas: Canvas
    var active: bool
    var notes: seq<Note>
    var nextId: int
    /** The id of the note under the last press, standing for the object
        reference the source keeps. */
    var selectedNote: Option<int>
    var isDragging: bool
    var dragOffset: (real, real)

    /** Ids are distinct and below `nextId`, the note records of the
        history carry the ids of `notes` in the same order, and a drag always
        has a selected note. */
    ghost predicate Valid()
      reads this, canvas
    {
      Consistent(notes, canvas.drawingHistory, nextId)
      && (isDragging ==> selectedNote.Some?)
    }

    constructor (canvas: Canvas)
      requires NoteRecords(canvas.drawingHistory) == []
      ensures Valid() && this.canvas == canvas
      ensures !active && notes == [] && nextId == 1 && selectedNote == None
      ensures !isDragging && dragOffset == (0.0, 0.0)
    {
      this.canvas := canvas;
      active := false;
      notes := [];
      nextId := 1;
      selectedNote := None;
      isDragging := false;
      dragOffset := (0.0, 0.0);
    }

    method Activate()
      requires Valid()
      modifies this`active
      ensures Valid() && active
    {
      active := true;
    }

    /** Deactivating also drops the selection and ends any drag. */
    method Deactivate()
      requires Valid()
      modifies this`active, this`selectedNote, this`isDragging
      ensures Valid() && !active && selectedNote == None && !isDragging
    {
      active := false;
      selectedNote := None;
      isDragging := false;
    }

    /** `getNoteAtPosition`: scans from the newest note down and returns the
        first whose box contains the point. */
    method GetNoteAtPosition(x: real, y: real) returns (r: Option<Note>)
      ensures r == NoteAt(notes, x, y)
      ensures r.None? <==> forall k :: 0 <= k < |notes| ==> !Contains(notes[k], x, y)
    {
      var i := |notes| - 1;
      while i >= 0
        invariant -1 <= i < |notes|
        invariant forall k :: i < k < |notes| ==> !Contains(notes[k], x, y)
      {
        if Contains(notes[i], x, y) {
          return Some(notes[i]);
        }
        i := i - 1;
      }
      return None;
    }

    /** `addNoteToHistory`: appends a 'note' record with the note's fields. */
    method AddNoteToHistory(note: Note)
      modifies canvas`drawingHistory
      ensures canvas.drawingHistory == old(canvas.drawingHistory) + [NoteRecord(note)]
    {
      canvas.drawingHistory := canvas.drawingHistory + [NoteRecord(note)];
    }

    /** `updateNoteInHistory`. */
    method UpdateNoteInHistory(note: Note)
      modifies canvas`drawingHistory
      ensures canvas.drawingHistory == PatchNoteRecord(old(canvas.drawingHistory), note)
    {
      var i := FindNoteRecord(canvas.drawingHistory, note.id);
      if i != -1 {
        var item := canvas.drawingHistory[i].note;
        var patched := item.(x := note.x, y := note.y, text := note.text, color := note.color, textColor := note.textColor);
        canvas.drawingHistory := canvas.drawingHistory[i := NoteRecord(patched)];
      }
    }

    /** `removeNoteFromHistory`. */
    method RemoveNoteFromHistory(id: int)
      modifies canvas`drawingHistory
      ensures canvas.drawingHistory == RemoveNoteRecord(old(canvas.drawingHistory), id)
    {
      var i := FindNoteRecord(canvas.drawingHistory, id);
      if i != -1 {
        canvas.drawingHistory := canvas.drawingHistory[..i] + canvas.drawingHistory[i + 1..];
      }
    }

    /** `createNote`: a fresh note with the next id goes on top of the list
        and its record at the end of the history. */
    method CreateNote(x: real, y: real) returns (note: Note)
      requires Valid()
      modifies this`notes, this`nextId, canvas`drawingHistory
      ensures Valid()
      ensures note == NewNote(old(nextId), x, y)
      ensures notes == old(notes) + [note] && nextId == old(nextId) + 1
      ensures canvas.drawingHistory == old(canvas.drawingHistory) + [NoteRecord(note)]
      ensures NonNoteRecords(canvas.drawingHistory) == NonNoteRecords(old(canvas.drawingHistory))
    {
      note := NewNote(nextId, x, y);
      AppendKeepsConsistent(notes, canvas.drawingHistory, nextId, note);
      nextId := nextId + 1;
      notes := notes + [note];
      AddNoteToHistory(note);
    }

    /** `deleteNote`: the note leaves the list and its record leaves the
        history; an id that is not in the list has no record either, so
        nothing changes. */
    method DeleteNote(id: int)
      requires Valid()
      modifies this`notes, canvas`drawingHistory
      ensures Valid()
      ensures notes == RemoveNote(old(notes), id)
      ensures canvas.drawingHistory == RemoveNoteRecord(old(canvas.drawingHistory), id)
      ensures NonNoteRecords(canvas.drawingHistory) == NonNoteRecords(old(canvas.drawingHistory))
      ensures FindNote(old(notes), id) == -1 ==>
        notes == old(notes) && canvas.drawingHistory == old(canvas.drawingHistory)
    {
      ghost var ns, h := notes, canvas.drawingHistory;
      DeleteKeepsConsistent(ns, h, nextId, id);
      var index := FindNote(notes, id);
      if index != -1 {
        notes := RemoveAt(notes, index);
      }
      assert notes == RemoveNote(ns, id);
      RemoveNoteFromHistory(id);
      assert canvas.drawingHistory == RemoveNoteRecord(h, id);
    }

    /** `handleTextareaBlur`: the edited note takes the editor's text; blank
        text (empty after `trim`) deletes the note, anything else is written
        through to its history record. A note deleted meanwhile changes
        nothing. */
    method HandleTextareaBlur(id: int, value: string)
      requires Valid()
      modifies this`notes, canvas`drawingHistory
      ensures Valid()
      ensures NonNoteRecords(canvas.drawingHistory) == NonNoteRecords(old(canvas.drawingHistory))
      ensures var j := FindNote(old(notes), id);
        if j == -1 then
          notes == old(notes) && canvas.drawingHistory == old(canvas.drawingHistory)
        else if IsBlank(value) then
          notes == RemoveAt(old(notes), j)
          && canvas.drawingHistory == RemoveNoteRecord(old(canvas.drawingHistory), id)
        else
          notes == old(notes)[j := old(notes)[j].(text := value)]
          && canvas.drawingHistory == PatchNoteRecord(old(canvas.drawingHistory), notes[j])
    {
      var j := FindNote(notes, id);
      if j != -1 {
        ReplaceKeepsConsistent(notes, canvas.drawingHistory, nextId, j, notes[j].(text := value));
        notes := notes[j := notes[j].(text := value)];
      }
      if IsBlank(value) {
        DeleteNote(id);
      } else if j != -1 {
        // A note absent from the list has no record: the source's update of
        // the dangling object is then a no-op, so it is skipped here.
        PatchNoteRecordEffect(canvas.drawingHistory, notes[j]);
        UpdateNoteInHistory(notes[j]);
      }
    }

    /** The editor's Escape key: the text box is reset to the note's text and
        blurred, so the note keeps its text, and a note whose text is blank
        is deleted. */
    method HandleEscape(id: int)
      requires Valid()
      modifies this`notes, canvas`drawingHistory
      ensures Valid()
      ensures NonNoteRecords(canvas.drawingHistory) == NonNoteRecords(old(canvas.drawingHistory))
      ensures var j := FindNote(old(notes), id);
        if j == -1 then
          notes == old(notes) && canvas.drawingHistory == old(canvas.drawingHistory)
        else if IsBlank(old(notes)[j].text) then
          notes == RemoveAt(old(notes), j)
          && canvas.drawingHistory == RemoveNoteRecord(old(canvas.drawingHistory), id)
        else
          notes == old(notes)
          && canvas.drawingHistory == PatchNoteRecord(old(canvas.drawingHistory), old(notes)[j])
    {
      var j := FindNote(notes, id);
      var text := if j == -1 then "" else notes[j].text;
      if j != -1 {
        assert notes[j := notes[j].(text := text)] == notes;
      }
      HandleTextareaBlur(id, text);
    }

    /** `handleCanvasClick`: ignored while inactive or dragging; a click on
        a note opens the editor on the topmost one, a click elsewhere creates
        a note there and opens the editor on it. The result is the id of the
        note the editor is opened on. */
    method HandleCanvasClick(x: real, y: real) returns (editing: Option<int>)
      requires Valid()
      modifies this`notes, this`nextId, canvas`drawingHistory
      ensures Valid()
      ensures NonNoteRecords(canvas.drawingHistory) == NonNoteRecords(old(canvas.drawingHistory))
      ensures !active || isDragging ==>
        editing == None && notes == old(notes) && nextId == old(nextId)
        && canvas.drawingHistory == old(canvas.drawingHistory)
      ensures active && !isDragging && NoteAt(old(notes), x, y).Some? ==>
        editing == Some(NoteAt(old(notes), x, y).value.id)
        && notes == old(notes) && nextId == old(nextId)
        && canvas.drawingHistory == old(canvas.drawingHistory)
      ensures active && !isDragging && NoteAt(old(notes), x, y).None? ==>
        editing == Some(old(nextId))
        && notes == old(notes) + [NewNote(old(nextId), x, y)] && nextId == old(nextId) + 1
        && canvas.drawingHistory == old(canvas.drawingHistory) + [NoteRecord(NewNote(old(nextId), x, y))]
    {
      if !active || isDragging {
        return None;
      }
      var clicked := GetNoteAtPosition(x, y);
      if clicked.Some? {
        editing := Some(clicked.value.id);
      } else {
        var note := CreateNote(x, y);
        editing := Some(note.id);
      }
    }

    /** `handleCanvasMouseDown`: a press on a note selects the topmost one
        and starts dragging it, remembering where in the note it was
        grabbed. */
    method HandleCanvasMouseDown(x: real, y: real)
      requires Valid()
      modifies this`selectedNote, this`isDragging, this`dragOffset
      ensures Valid()
      ensures !active || NoteAt(notes, x, y).None? ==>
        selectedNote == old(selectedNote) && isDragging == old(isDragging)
        && dragOffset == old(dragOffset)
      ensures active && NoteAt(notes, x, y).Some? ==>
        var n := NoteAt(notes, x, y).value;
        selectedNote == Some(n.id) && isDragging && dragOffset == GrabOffset(n, x, y)
    {
      if !active {
        return;
      }
      var clicked := GetNoteAtPosition(x, y);
      if clicked.Some? {
        BeginDrag(clicked.value, x, y);
      }
    }

    /** Selects note `n` and starts dragging it, grabbed at `(x, y)`. */
    method BeginDrag(n: Note, x: real, y: real)
      requires Valid()
      modifies this`selectedNote, this`isDragging, this`dragOffset
      ensures Valid()
      ensures selectedNote == Some(n.id) && isDragging && dragOffset == GrabOffset(n, x, y)
    {
      selectedNote := Some(n.id);
      isDragging := true;
      dragOffset := GrabOffset(n, x, y);
    }

    /** `handleCanvasMouseMove`: while dragging, the selected note follows
        the pointer, keeping the grab offset. The history record is not
        touched until the button is released. */
    method HandleCanvasMouseMove(x: real, y: real)
      requires Valid()
      modifies this`notes
      ensures Valid()
      ensures active && isDragging ==>
        var c := DragCorner(x, y, dragOffset);
        notes == MoveNote(old(notes), selectedNote.value, c.0, c.1)
      ensures !active || !isDragging ==> notes == old(notes)
    {
      if !active || !isDragging || selectedNote.None? {
        return;
      }
      var c := DragCorner(x, y, dragOffset);
      MoveSelected(selectedNote.value, c.0, c.1);
    }

    /** The drag step itself: the note with id `id` gets its corner at
        `(nx, ny)`. */
    method MoveSelected(id: int, nx: real, ny: real)
      requires Valid()
      modifies this`notes
      ensures Valid()
      ensures notes == MoveNote(old(notes), id, nx, ny)
    {
      var j := FindNote(notes, id);
      MoveKeepsConsistent(notes, canvas.drawingHistory, nextId, id, nx, ny);
      if j != -1 {
        notes := notes[j := notes[j].(x := nx, y := ny)];
      }
    }

    /** `handleCanvasMouseUp`: ends a drag and writes the selected note's
        position through to its history record. */
    method HandleCanvasMouseUp()
      requires Valid()
      modifies this`isDragging, canvas`drawingHistory
      ensures Valid()
      ensures !active || !old(isDragging) ==>
        isDragging == old(isDragging) && canvas.drawingHistory == old(canvas.drawingHistory)
      ensures active && old(isDragging) ==>
        !isDragging
        && var j := FindNote(notes, selectedNote.value);
        canvas.drawingHistory ==
          if j == -1 then old(canvas.drawingHistory)
          else PatchNoteRecord(old(canvas.drawingHistory), notes[j])
      ensures NonNoteRecords(canvas.drawingHistory) == NonNoteRecords(old(canvas.drawingHistory))
    {
      if !active {
        return;
      }
      if isDragging {
        isDragging := false;
        var j := FindNote(notes, selectedNote.value);
        if j != -1 {
          PatchNoteRecordEffect(canvas.drawingHistory, notes[j]);
          UpdateNoteInHistory(notes[j]);
        } else {
          // The selected note was deleted: it has no record to update.
          NoNoteRecordIff(canvas.drawingHistory, selectedNote.value);
        }
      }
    }
  }

  /** Creating a note and deleting it by its id restores both the list and
      the history. */
  lemma CreateThenDelete(ns: seq<Note>, h: seq<Record>, nextId: int, x: real, y: real)
    requires Consistent(ns, h, nextId)
    ensures RemoveNote(ns + [NewNote(nextId, x, y)], nextId) == ns
    ensures RemoveNoteRecord(h + [NoteRecord(NewNote(nextId, x, y))], nextId) == h
  {
    var n := NewNote(nextId, x, y);
    var ns' := ns + [n];
    assert forall k :: 0 <= k < |ns| ==> ns'[k] == ns[k] && ns'[k].id != nextId;
    assert ns'[|ns|] == n;
    assert FindNote(ns', nextId) == |ns|;
    assert RemoveAt(ns', |ns|) == ns;
    var h' := h + [NoteRecord(n)];
    NoNoteRecordIff(h, nextId);
    assert nextId !in NoteIds(ns);
    assert forall k :: 0 <= k < |h| ==> h'[k] == h[k] && !IsNoteRecordFor(h[k], nextId);
    assert h'[|h|] == NoteRecord(n);
    assert FindNoteRecord(h', nextId) == |h|;
    assert RemoveAt(h', |h|) == h;
  }

  /** A click on empty canvas followed by leaving the editor empty leaves no
      trace: the note is created and, its text being blank, deleted again
      together with its record. */
  method CreateThenAbandon(m: NotesModule, x: real, y: real)
    requires m.Valid() && m.active && !m.isDragging && NoteAt(m.notes, x, y).None?
    modifies m`notes, m`nextId, m.canvas`drawingHistory
    ensures m.Valid()
    ensures m.notes == old(m.notes) && m.canvas.drawingHistory == old(m.canvas.drawingHistory)
    ensures m.nextId == old(m.nextId) + 1
  {
    CreateThenDelete(m.notes, m.canvas.drawingHistory, m.nextId, x, y);
    var editing := m.HandleCanvasClick(x, y);
    m.HandleTextareaBlur(editing.value, "");
  }
}
