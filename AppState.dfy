/** The state of the single-page app and the handlers that change it. The
    outside world enters as parameters: the random number of a draw, the clock
    readings that become a record's id and date, whether the camera could be
    opened, and the frame a capture yields. */
module AppState {
  import opened Records
  import Suggestions

  /** The four screens; exactly one is shown. */
  datatype View = Home | Result | RecordsList | Donate

  /** What the app finds in local storage on mount: nothing (or an empty
      string), a blob that does not parse, or a parsed list of records. */
  datatype Stored = Absent | Corrupt | Parsed(list: seq<OutfitRecord>)

  class App {
    var view: View
    var currentItem: string
    var records: seq<OutfitRecord>
    var isDrawing: bool
    var capturedImage: Option<string>
    var note: string
    var showCamera: bool
    /** The list as last written to local storage, assuming every write
        succeeds; every change of `records` is written back at once. */
    ghost var persisted: seq<OutfitRecord>

    /** The drawn item is empty before the first draw and a catalogue entry
        after it; the result screen only ever shows a catalogue entry; local
        storage holds the current list (as far as its writes succeed). */
    ghost predicate Valid()
      reads this
    {
      (currentItem == "" || currentItem in Suggestions.Catalogue) &&
      (view == Result ==> currentItem in Suggestions.Catalogue) &&
      persisted == records
    }

    /** Mounting: the initial state, then the load effect. A parsed list replaces
        the empty one; a missing or unreadable blob leaves it empty (and the save
        effect then overwrites the unreadable blob with the empty list). */
    constructor (stored: Stored)
      ensures Valid()
      ensures view == Home && currentItem == "" && !isDrawing
      ensures capturedImage == None && note == "" && !showCamera
      ensures records == (if stored.Parsed? then stored.list else [])
    {
      view := Home;
      currentItem := "";
      isDrawing := false;
      capturedImage := None;
      note := "";
      showCamera := false;
      records := [];
      match stored {
        case Parsed(list) => records := list;
        case _ =>
      }
      persisted := records;
    }

    /** The first, immediate half of `drawItem`: the spinner starts and the
        previous photo and note are dropped. The screen and the drawn item stay
        as they are until the delayed half runs. */
    method BeginDraw()
      requires Valid()
      modifies this
      ensures Valid()
      ensures isDrawing && capturedImage == None && note == ""
      ensures view == old(view) && currentItem == old(currentItem)
      ensures records == old(records) && showCamera == old(showCamera)
    {
      isDrawing := true;
      capturedImage := None;
      note := "";
    }

    /** The delayed half of `drawItem`, with `r` the value of `Math.random()`:
        a catalogue entry is drawn and the result screen shown. It runs whether
        or not a draw is in progress, since every started timer fires. */
    method FinishDraw(r: real)
      requires Valid()
      requires 0.0 <= r < 1.0
      modifies this
      ensures Valid()
      ensures currentItem == Suggestions.Catalogue[Suggestions.PickIndex(r)]
      ensures currentItem in Suggestions.Catalogue
      ensures !isDrawing && view == Result
      ensures records == old(records) && capturedImage == old(capturedImage)
      ensures note == old(note) && showCamera == old(showCamera)
    {
      currentItem := Suggestions.Draw(r);
      isDrawing := false;
      view := Result;
    }

    /** `startCamera`: the camera pane opens; if the camera cannot be acquired
        it closes again. Nothing else changes. */
    method StartCamera(acquired: bool)
      requires Valid()
      modifies this
      ensures Valid()
      ensures showCamera == acquired
      ensures view == old(view) && currentItem == old(currentItem) && records == old(records)
      ensures isDrawing == old(isDrawing) && capturedImage == old(capturedImage) && note == old(note)
    {
      showCamera := true;
      if !acquired {
        showCamera := false;
      }
    }

    /** `stopCamera`: the camera pane closes. */
    method StopCamera()
      requires Valid()
      modifies this
      ensures Valid()
      ensures !showCamera
      ensures view == old(view) && currentItem == old(currentItem) && records == old(records)
      ensures isDrawing == old(isDrawing) && capturedImage == old(capturedImage) && note == old(note)
    {
      showCamera := false;
    }

    /** `capturePhoto`: `frame` is the still image the canvas yields, or None when
        the video element, the canvas or its drawing context is missing, in which
        case nothing happens. Otherwise the frame is kept and the camera stopped. */
    method CapturePhoto(frame: Option<string>)
      requires Valid()
      modifies this
      ensures Valid()
      ensures frame.Some? ==> capturedImage == frame && !showCamera
      ensures frame.None? ==> capturedImage == old(capturedImage) && showCamera == old(showCamera)
      ensures view == old(view) && currentItem == old(currentItem) && records == old(records)
      ensures isDrawing == old(isDrawing) && note == old(note)
    {
      if frame.Some? {
        capturedImage := frame;
        StopCamera();
      }
    }

    /** The close button on a captured photo: the photo is discarded. */
    method ClearPhoto()
      requires Valid()
      modifies this
      ensures Valid()
      ensures capturedImage == None
      ensures view == old(view) && currentItem == old(currentItem) && records == old(records)
      ensures isDrawing == old(isDrawing) && note == old(note) && showCamera == old(showCamera)
    {
      capturedImage := None;
    }

    /** Typing in the note box replaces the note. */
    method EditNote(text: string)
      requires Valid()
      modifies this
      ensures Valid()
      ensures note == text
      ensures view == old(view) && currentItem == old(currentItem) && records == old(records)
      ensures isDrawing == old(isDrawing) && capturedImage == old(capturedImage) && showCamera == old(showCamera)
    {
      note := text;
    }

    /** `saveRecord`, with `id` and `date` the clock readings: the current draw,
        photo and note become a new record in front of the list, and the records
        screen is shown. The draw, photo and note themselves are kept. */
    method SaveRecord(id: string, date: string)
      requires Valid()
      modifies this
      ensures Valid()
      ensures records == Saved(old(records), MakeRecord(id, date, old(currentItem), old(capturedImage), old(note)))
      ensures |records| == |old(records)| + 1 && records[1..] == old(records)
      ensures records[0].style == old(currentItem) && records[0].note == old(note)
      ensures old(view) == Result ==> records[0].style in Suggestions.Catalogue
      ensures view == RecordsList
      ensures currentItem == old(currentItem) && capturedImage == old(capturedImage) && note == old(note)
      ensures isDrawing == old(isDrawing) && showCamera == old(showCamera)
    {
      var rec := MakeRecord(id, date, currentItem, capturedImage, note);
      records := Saved(records, rec);
      persisted := records;
      view := RecordsList;
    }

    /** `deleteRecord`: every record with this id goes; the others stay, in order. */
    method DeleteRecord(id: string)
      requires Valid()
      modifies this
      ensures Valid()
      ensures records == RemoveId(old(records), id)
      ensures forall i :: 0 <= i < |records| ==> records[i].id != id
      ensures view == old(view) && currentItem == old(currentItem) && isDrawing == old(isDrawing)
      ensures capturedImage == old(capturedImage) && note == old(note) && showCamera == old(showCamera)
    {
      records := RemoveId(records, id);
      persisted := records;
      assert forall i :: 0 <= i < |records| ==> records[i] in records;
    }

    /** The title, the two navigation tabs and the two back buttons: only the
        screen changes. None of them leads to the result screen. */
    method Navigate(target: View)
      requires Valid()
      requires target != Result
      modifies this
      ensures Valid()
      ensures view == target
      ensures currentItem == old(currentItem) && records == old(records) && isDrawing == old(isDrawing)
      ensures capturedImage == old(capturedImage) && note == old(note) && showCamera == old(showCamera)
    {
      view := target;
    }
  }

  /** A session as the screens allow it: draw, photograph, save, delete. */
  method DrawSaveDelete(r: real, frame: string)
    requires 0.0 <= r < 1.0
  {
    var app := new App(Absent);
    app.BeginDraw();
    app.FinishDraw(r);
    assert app.view == Result && app.currentItem in Suggestions.Catalogue;
    app.StartCamera(true);
    app.CapturePhoto(Some(frame));
    app.EditNote("comfy");
    app.SaveRecord("1704067200000", "2024/1/1 00:00:00");
    assert |app.records| == 1 && app.records[0].note == "comfy";
    assert frame != "" ==> app.records[0].image == Some(frame);
    app.DeleteRecord("1704067200000");
    assert app.records == [];
  }
}
