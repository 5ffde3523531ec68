/** The drawing history shared by the widget registries: the records they
    append, patch and remove, and the part of the canvas module that owns the
    history and the current tool. */
module History {

  datatype Option<T> = None | Some(value: T)

  /** A sticky note, with the fields `NotesModule.createNote` gives it. */
  datatype Note = Note(
    id: int, x: real, y: real, width: real, height: real,
    text: string, color: string, textColor: string,
    fontSize: int, fontFamily: string)

  /** What ends up in a QR code's `dataURL`: the PNG made from the fetched
      image, the service URL itself (when the PNG conversion fails), or the
      locally drawn fallback picture for a text and a size. */
  datatype Image = Png(data: string) | ServiceUrl(text: string, size: int) | Fallback(text: string, size: int)

  /** A QR code placed on the canvas. */
  datatype QRCode = QRCode(
    id: int, x: real, y: real, width: real, height: real,
    text: string, dataURL: Option<Image>)

  /** One entry of `drawingHistory`, tagged by its `tool` field: `'note'`
      and `'qrcode'` records carry the widget's fields; every other record
      (pen and eraser strokes, text) is written by modules outside this
      model and is only carried along. */
  datatype Record = NoteRecord(note: Note) | QRRecord(qr: QRCode) | OtherRecord(tool: OtherTool)

  /** The `tool` tag of a record written outside this model: never `'note'`
      or `'qrcode'`, which only the two widget modules write. */
  type OtherTool = t: string | t != "note" && t != "qrcode" witness "pen"

  /** The values `canvasModule.currentTool` takes: 'pen', 'eraser', 'text',
      'notes' and 'qrcode'. */
  datatype Tool = Pen | Eraser | TextTool | NotesTool | QRTool

  /** The canvas module's drawing history and current tool. */
  class Canvas {
    var drawingHistory: seq<Record>
    var currentTool: Tool

    constructor ()
      ensures drawingHistory == [] && currentTool == Pen
    {
      drawingHistory := [];
      currentTool := Pen;
    }

    /** `setTool`. */
    method SetTool(tool: Tool)
      modifies this`currentTool
      ensures currentTool == tool
    {
      currentTool := tool;
    }

    /** `clearCanvas`: empties the drawing history. */
    method ClearCanvas()
      modifies this`drawingHistory
      ensures drawingHistory == []
    {
      drawingHistory := [];
    }
  }

  /** The notes carried by the `'note'` records of `h`, in history order. */
  function NoteRecords(h: seq<Record>): seq<Note> {
    if h == [] then []
    else (if h[0].NoteRecord? then [h[0].note] else []) + NoteRecords(h[1..])
  }

  /** The QR codes carried by the `'qrcode'` records of `h`, in history order. */
  function QRRecords(h: seq<Record>): seq<QRCode> {
    if h == [] then []
    else (if h[0].QRRecord? then [h[0].qr] else []) + QRRecords(h[1..])
  }

  /** The records of `h` that are not `'note'` records, in order. */
  function NonNoteRecords(h: seq<Record>): seq<Record> {
    if h == [] then []
    else (if h[0].NoteRecord? then [] else [h[0]]) + NonNoteRecords(h[1..])
  }

  function NoteIds(ns: seq<Note>): (r: seq<int>)
    ensures |r| == |ns| && forall k :: 0 <= k < |ns| ==> r[k] == ns[k].id
  {
    if ns == [] then [] else [ns[0].id] + NoteIds(ns[1..])
  }

  predicate IsNoteRecordFor(r: Record, id: int) {
    r.NoteRecord? && r.note.id == id
  }

  /** `drawingHistory.findIndex(item => item.tool === 'note' && item.id === id)`:
      the index of the first note record with that id, or -1. */
  function FindNoteRecord(h: seq<Record>, id: int): (r: int)
    ensures -1 <= r < |h|
    ensures r == -1 <==> forall k :: 0 <= k < |h| ==> !IsNoteRecordFor(h[k], id)
    ensures r >= 0 ==> IsNoteRecordFor(h[r], id) && forall k :: 0 <= k < r ==> !IsNoteRecordFor(h[k], id)
  {
    if h == [] then -1
    else if IsNoteRecordFor(h[0], id) then 0
    else
      var r := FindNoteRecord(h[1..], id);
      if r == -1 then -1 else r + 1
  }

  /** `s.splice(i, 1)`. */
  function RemoveAt<T>(s: seq<T>, i: nat): (r: seq<T>)
    requires i < |s|
    ensures |r| == |s| - 1
    ensures forall k :: 0 <= k < i ==> r[k] == s[k]
    ensures forall k :: i <= k < |r| ==> r[k] == s[k + 1]
  {
    s[..i] + s[i + 1..]
  }

  /** Splicing out a position after the first keeps the first element in
      front. */
  lemma RemoveAtTail<T>(s: seq<T>, i: nat)
    requires 0 < i < |s|
    ensures RemoveAt(s, i) == [s[0]] + RemoveAt(s[1..], i - 1)
  {
    var r, q := RemoveAt(s, i), [s[0]] + RemoveAt(s[1..], i - 1);
    assert |r| == |q|;
    forall k | 0 <= k < |r|
      ensures r[k] == q[k]
    {
      if k > 0 {
        assert q[k] == RemoveAt(s[1..], i - 1)[k - 1];
      }
    }
  }

  /** `removeNoteFromHistory`: drops the first note record with that id;
      a history without one is returned unchanged. */
  function RemoveNoteRecord(h: seq<Record>, id: int): seq<Record> {
    var i := FindNoteRecord(h, id);
    if i == -1 then h else RemoveAt(h, i)
  }

  /** `updateNoteInHistory(n)`: the first note record with `n`'s id takes
      `n`'s x, y, text, color and textColor; its width, height, fontSize and
      fontFamily and every other record stay as they were. */
  function PatchNoteRecord(h: seq<Record>, n: Note): (r: seq<Record>)
    ensures |r| == |h|
    ensures FindNoteRecord(h, n.id) == -1 ==> r == h
    ensures forall k :: 0 <= k < |h| && k != FindNoteRecord(h, n.id) ==> r[k] == h[k]
    ensures var i := FindNoteRecord(h, n.id);
      i >= 0 ==> (r[i].NoteRecord? &&
        var old_ := h[i].note; var new_ := r[i].note;
        new_.id == old_.id && new_.width == old_.width && new_.height == old_.height
        && new_.fontSize == old_.fontSize && new_.fontFamily == old_.fontFamily
        && new_.x == n.x && new_.y == n.y && new_.text == n.text
        && new_.color == n.color && new_.textColor == n.textColor)
  {
    var i := FindNoteRecord(h, n.id);
    if i == -1 then h
    else h[i := NoteRecord(h[i].note.(x := n.x, y := n.y, text := n.text, color := n.color, textColor := n.textColor))]
  }

  lemma {:induction false} NoteRecordsAppend(a: seq<Record>, b: seq<Record>)
    ensures NoteRecords(a + b) == NoteRecords(a) + NoteRecords(b)
  {
    if a == [] {
      assert a + b == b;
    } else {
      assert (a + b)[0] == a[0] && (a + b)[1..] == a[1..] + b;
      NoteRecordsAppend(a[1..], b);
      var head := if a[0].NoteRecord? then [a[0].note] else [];
      assert NoteRecords(a + b) == head + NoteRecords(a[1..] + b);
      assert head + (NoteRecords(a[1..]) + NoteRecords(b)) == (head + NoteRecords(a[1..])) + NoteRecords(b);
    }
  }

  lemma {:induction false} QRRecordsAppend(a: seq<Record>, b: seq<Record>)
    ensures QRRecords(a + b) == QRRecords(a) + QRRecords(b)
  {
    if a == [] {
      assert a + b == b;
    } else {
      assert (a + b)[0] == a[0] && (a + b)[1..] == a[1..] + b;
      QRRecordsAppend(a[1..], b);
      var head := if a[0].QRRecord? then [a[0].qr] else [];
      assert QRRecords(a + b) == head + QRRecords(a[1..] + b);
      assert head + (QRRecords(a[1..]) + QRRecords(b)) == (head + QRRecords(a[1..])) + QRRecords(b);
    }
  }

  lemma {:induction false} NonNoteRecordsAppend(a: seq<Record>, b: seq<Record>)
    ensures NonNoteRecords(a + b) == NonNoteRecords(a) + NonNoteRecords(b)
  {
    if a == [] {
      assert a + b == b;
    } else {
      assert (a + b)[0] == a[0] && (a + b)[1..] == a[1..] + b;
      NonNoteRecordsAppend(a[1..], b);
      var head := if a[0].NoteRecord? then [] else [a[0]];
      assert NonNoteRecords(a + b) == head + NonNoteRecords(a[1..] + b);
      assert head + (NonNoteRecords(a[1..]) + NonNoteRecords(b)) == (head + NonNoteRecords(a[1..])) + NonNoteRecords(b);
    }
  }

  lemma {:induction false} NoteIdsAppend(a: seq<Note>, b: seq<Note>)
    ensures NoteIds(a + b) == NoteIds(a) + NoteIds(b)
  {
    if a != [] {
      assert (a + b)[0] == a[0] && (a + b)[1..] == a[1..] + b;
      NoteIdsAppend(a[1..], b);
      assert NoteIds(a + b) == [a[0].id] + NoteIds(a[1..] + b);
      assert [a[0].id] + (NoteIds(a[1..]) + NoteIds(b)) == ([a[0].id] + NoteIds(a[1..])) + NoteIds(b);
    }
  }

  /** The QR records of a history are those of its non-note part: a change
      confined to note records leaves them alone. */
  lemma {:induction false} QRRecordsOfNonNote(h: seq<Record>)
    ensures QRRecords(NonNoteRecords(h)) == QRRecords(h)
  {
    if h != [] {
      QRRecordsOfNonNote(h[1..]);
      var head := if h[0].NoteRecord? then [] else [h[0]];
      QRRecordsAppend(head, NonNoteRecords(h[1..]));
    }
  }

  /** Appending a record that is not a note record leaves the id sequence
      of the note records as it was; appending a note record extends it. */
  lemma AppendRecordNoteIds(h: seq<Record>, r: Record)
    ensures !r.NoteRecord? ==> NoteIds(NoteRecords(h + [r])) == NoteIds(NoteRecords(h))
    ensures r.NoteRecord? ==> NoteIds(NoteRecords(h + [r])) == NoteIds(NoteRecords(h)) + [r.note.id]
  {
    NoteRecordsAppend(h, [r]);
    assert NoteRecords([r]) == if r.NoteRecord? then [r.note] else [] by {
      assert [r][1..] == [];
    }
    NoteIdsAppend(NoteRecords(h), NoteRecords([r]));
  }

  /** Appending a note record leaves the non-note records as they were. */
  lemma AppendNoteNonNote(h: seq<Record>, n: Note)
    ensures NonNoteRecords(h + [NoteRecord(n)]) == NonNoteRecords(h)
  {
    NonNoteRecordsAppend(h, [NoteRecord(n)]);
    assert [NoteRecord(n)][1..] == [];
  }

  /** Appending a QR record extends the QR records by its QR code. */
  lemma AppendQRRecords(h: seq<Record>, q: QRCode)
    ensures QRRecords(h + [QRRecord(q)]) == QRRecords(h) + [q]
  {
    QRRecordsAppend(h, [QRRecord(q)]);
    assert [QRRecord(q)][1..] == [];
  }

  lemma SingleRecord(r: Record)
    ensures NoteRecords([r]) == if r.NoteRecord? then [r.note] else []
    ensures NonNoteRecords([r]) == if r.NoteRecord? then [] else [r]
    ensures QRRecords([r]) == if r.QRRecord? then [r.qr] else []
  {
    assert [r][1..] == [];
  }

  /** Appending a record that is not a note keeps the note records and adds
      the record to the non-note ones. */
  lemma AppendNonNote(h: seq<Record>, r: Record)
    requires !r.NoteRecord?
    ensures NoteRecords(h + [r]) == NoteRecords(h)
    ensures NonNoteRecords(h + [r]) == NonNoteRecords(h) + [r]
  {
    NoteRecordsAppend(h, [r]);
    NonNoteRecordsAppend(h, [r]);
    SingleRecord(r);
  }

  /** No note record with id `id` in `h` means `id` is not among the ids of
      its note records, and conversely. */
  lemma {:induction false} NoNoteRecordIff(h: seq<Record>, id: int)
    ensures FindNoteRecord(h, id) == -1 <==> id !in NoteIds(NoteRecords(h))
  {
    if h != [] {
      NoNoteRecordIff(h[1..], id);
      var head := if h[0].NoteRecord? then [h[0].note] else [];
      NoteIdsAppend(head, NoteRecords(h[1..]));
    }
  }

  /** The sequence `s` without the first occurrence of `x` (`s` itself if
      `x` does not occur). */
  function RemoveFirst(s: seq<int>, x: int): seq<int> {
    if s == [] then [] else if s[0] == x then s[1..] else [s[0]] + RemoveFirst(s[1..], x)
  }

  lemma RemoveNoteRecordUnfold(h: seq<Record>, id: int)
    requires h != [] && !IsNoteRecordFor(h[0], id)
    ensures RemoveNoteRecord(h, id) == [h[0]] + RemoveNoteRecord(h[1..], id)
  {
    var i, t := FindNoteRecord(h, id), h[1..];
    if i == -1 {
      assert h == [h[0]] + t;
    } else {
      assert FindNoteRecord(t, id) == i - 1;
      RemoveAtTail(h, i);
    }
  }

  /** Removing the first note record with id `id` removes the first
      occurrence of `id` from the note-id sequence and keeps every other
      record kind, in order. */
  lemma {:induction false} RemoveNoteRecordEffect(h: seq<Record>, id: int)
    ensures NoteIds(NoteRecords(RemoveNoteRecord(h, id))) == RemoveFirst(NoteIds(NoteRecords(h)), id)
    ensures NonNoteRecords(RemoveNoteRecord(h, id)) == NonNoteRecords(h)
  {
    if h != [] {
      var t := h[1..];
      var head := if h[0].NoteRecord? then [h[0].note] else [];
      NoteIdsAppend(head, NoteRecords(t));
      if IsNoteRecordFor(h[0], id) {
        assert RemoveNoteRecord(h, id) == t;
      } else {
        RemoveNoteRecordUnfold(h, id);
        RemoveNoteRecordEffect(t, id);
        var r := RemoveNoteRecord(t, id);
        assert ([h[0]] + r)[0] == h[0] && ([h[0]] + r)[1..] == r;
        assert NoteRecords([h[0]] + r) == head + NoteRecords(r);
        NoteIdsAppend(head, NoteRecords(r));
        var rest := NoteIds(NoteRecords(t));
        if head == [] {
          assert NoteIds(head) == [];
          assert NoteIds(head) + rest == rest;
          assert NoteIds(head) + NoteIds(NoteRecords(r)) == NoteIds(NoteRecords(r));
        } else {
          var a := h[0].note.id;
          assert NoteIds(head) == [a];
          assert ([a] + rest)[0] == a && ([a] + rest)[1..] == rest;
        }
      }
    }
  }

  lemma PatchNoteRecordUnfold(h: seq<Record>, n: Note)
    requires h != [] && !IsNoteRecordFor(h[0], n.id)
    ensures PatchNoteRecord(h, n) == [h[0]] + PatchNoteRecord(h[1..], n)
  {
    var i, t := FindNoteRecord(h, n.id), h[1..];
    if i == -1 {
      assert h == [h[0]] + t;
    } else {
      assert FindNoteRecord(t, n.id) == i - 1;
    }
  }

  /** Patching a note record keeps the note-id sequence and the non-note
      records. */
  lemma {:induction false} PatchNoteRecordEffect(h: seq<Record>, n: Note)
    ensures NoteIds(NoteRecords(PatchNoteRecord(h, n))) == NoteIds(NoteRecords(h))
    ensures NonNoteRecords(PatchNoteRecord(h, n)) == NonNoteRecords(h)
  {
    if h != [] {
      var t := h[1..];
      var r := PatchNoteRecord(h, n);
      if IsNoteRecordFor(h[0], n.id) {
        assert r == [r[0]] + t;
        assert NoteRecords(r) == [r[0].note] + NoteRecords(t);
        NoteIdsAppend([r[0].note], NoteRecords(t));
        NoteIdsAppend([h[0].note], NoteRecords(t));
      } else {
        PatchNoteRecordUnfold(h, n);
        PatchNoteRecordEffect(t, n);
        var p := PatchNoteRecord(t, n);
        assert r[0] == h[0] && r[1..] == p;
        var head := if h[0].NoteRecord? then [h[0].note] else [];
        NoteIdsAppend(head, NoteRecords(p));
        NoteIdsAppend(head, NoteRecords(t));
      }
    }
  }
}
